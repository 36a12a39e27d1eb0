/** The transfer memo of a kiosk order (bank-memo.ts, ascii-fold.ts, order-confirmation-code.ts)
    and its way into the QR payload.

    Decomposing, dropping diacritics and upper-casing are one arbitrary function on text; the
    stages of the fold after it are modelled. */
module BankMemo {
  import opened Numerals
  import opened VietQr

  const MEMO_MAX := 25

  predicate IsHex(c: char) {
    '0' <= c <= '9' || 'a' <= c <= 'f' || 'A' <= c <= 'F'
  }

  /** What the first eight characters of a UUID look like. */
  predicate IsOrderId(id: string) {
    |id| >= 8 && forall i | 0 <= i < 8 :: IsHex(id[i])
  }

  function Upper(c: char): char {
    if 'a' <= c <= 'f' then "ABCDEF"[c as int - 'a' as int] else c
  }

  function ConfirmationCode(id: string): (code: string)
    requires IsOrderId(id)
    ensures |code| == 8
  {
    seq(8, i requires 0 <= i < 8 => Upper(id[i]))
  }

  /** Anything outside the memo alphabet becomes a space. */
  function KeepAscii(s: string): string {
    seq(|s|, i requires 0 <= i < |s| => if IsMemoChar(s[i]) then s[i] else ' ')
  }

  /** Runs of spaces become one. */
  function Collapse(s: string): string {
    if |s| <= 1 then s
    else if s[0] == ' ' && s[1] == ' ' then Collapse(s[1..])
    else [s[0]] + Collapse(s[1..])
  }

  function TrimLeft(s: string): string {
    if s != "" && s[0] == ' ' then TrimLeft(s[1..]) else s
  }

  function TrimRight(s: string): string {
    if s != "" && s[|s| - 1] == ' ' then TrimRight(s[..|s| - 1]) else s
  }

  function Trim(s: string): string {
    TrimRight(TrimLeft(s))
  }

  function AsciiFold(plain: string -> string, input: string): string {
    Trim(Collapse(KeepAscii(plain(input))))
  }

  function Memo(plain: string -> string, orderId: string, prisonerName: string): string
    requires IsOrderId(orderId)
  {
    var code := ConfirmationCode(orderId);
    var folded := AsciiFold(plain, prisonerName);
    var remaining := MEMO_MAX - |code| - 1;
    if folded == "" || remaining <= 0 then code
    else
      var namePart := Trim(if |folded| <= remaining then folded else folded[..remaining]);
      if namePart == "" then code else code + " " + namePart
  }

  // -------------------------------------------------------------------------------- the alphabet

  /** One space at most between words and none at the ends. */
  predicate Tidy(s: string) {
    && IsMemo(s)
    && (s != "" ==> s[0] != ' ' && s[|s| - 1] != ' ')
    && (forall i | 0 <= i < |s| - 1 :: !(s[i] == ' ' && s[i + 1] == ' '))
  }

  predicate SingleSpaced(s: string) {
    forall i | 0 <= i < |s| - 1 :: !(s[i] == ' ' && s[i + 1] == ' ')
  }

  lemma {:induction false} CollapseIsSingleSpaced(s: string)
    requires IsMemo(s)
    ensures IsMemo(Collapse(s)) && SingleSpaced(Collapse(s))
    ensures s != "" ==> Collapse(s) != "" && Collapse(s)[0] == s[0]
  {
    if |s| > 1 {
      CollapseIsSingleSpaced(s[1..]);
    }
  }

  lemma {:induction false} TrimLeftKeeps(s: string)
    requires IsMemo(s) && SingleSpaced(s)
    ensures IsMemo(TrimLeft(s)) && SingleSpaced(TrimLeft(s)) && |TrimLeft(s)| <= |s|
    ensures TrimLeft(s) != "" ==> TrimLeft(s)[0] != ' '
  {
  }

  lemma {:induction false} TrimRightKeeps(s: string)
    requires IsMemo(s) && SingleSpaced(s) && (s != "" ==> s[0] != ' ')
    ensures Tidy(TrimRight(s)) && TrimRight(s) <= s
  {
  }

  lemma TrimIsTidy(s: string)
    requires IsMemo(s) && SingleSpaced(s)
    ensures Tidy(Trim(s)) && |Trim(s)| <= |s|
  {
    TrimLeftKeeps(s);
    TrimRightKeeps(TrimLeft(s));
  }

  /** Whatever a name decomposes to, its fold is tidy ASCII. */
  lemma FoldIsTidy(plain: string -> string, input: string)
    ensures Tidy(AsciiFold(plain, input))
  {
    var kept := KeepAscii(plain(input));
    assert IsMemo(kept);
    CollapseIsSingleSpaced(kept);
    TrimIsTidy(Collapse(kept));
  }

  lemma CodeIsFolded(id: string)
    requires IsOrderId(id)
    ensures Tidy(ConfirmationCode(id)) && forall i | 0 <= i < 8 :: ConfirmationCode(id)[i] != ' '
  {
  }

  /** Every memo of a UUID order starts with its code, is tidy and at most 25 characters long. */
  lemma MemoIsShortAndTidy(plain: string -> string, orderId: string, prisonerName: string)
    requires IsOrderId(orderId)
    ensures var memo := Memo(plain, orderId, prisonerName);
            && ConfirmationCode(orderId) <= memo
            && 8 <= |memo| <= MEMO_MAX
            && Tidy(memo)
            && (|memo| > 8 ==> memo[8] == ' ')
  {
    var folded := AsciiFold(plain, prisonerName);
    CodeIsFolded(orderId);
    FoldIsTidy(plain, prisonerName);
    var part := if |folded| <= 16 then folded else folded[..16];
    assert IsMemo(part) && SingleSpaced(part);
    TrimIsTidy(part);
    hide AsciiFold, Trim, ConfirmationCode;
    var code, name := ConfirmationCode(orderId), Trim(part);
    if name != "" {
      var memo := code + " " + name;
      forall i | 0 <= i < |memo| - 1 ensures !(memo[i] == ' ' && memo[i + 1] == ' ') {
        if i > 8 {
          assert memo[i] == name[i - 9] && memo[i + 1] == name[i - 9 + 1];
        }
      }
    }
  }

  /** So every kiosk order with a valid account and a safe positive amount gets a payload, and
      scanning it gives back the account, the amount and a memo that names the order. */
  lemma KioskPayloadReadsBack(plain: string -> string, orderId: string, prisonerName: string, account: BankAccount, amountVnd: int)
    requires IsOrderId(orderId) && 0 < amountVnd <= MAX_SAFE_INTEGER
    requires |account.bankBin| == 6 && AllDigits(account.bankBin)
    requires 6 <= |account.accountNumber| <= 19 && AllDigits(account.accountNumber)
    ensures var memo := Memo(plain, orderId, prisonerName);
            && Payload(account, amountVnd, memo).Ok?
            && ReadPayload(Payload(account, amountVnd, memo).text) == Some(Payment(account, amountVnd, memo))
            && memo[..8] == ConfirmationCode(orderId)
  {
    var memo := Memo(plain, orderId, prisonerName);
    MemoIsShortAndTidy(plain, orderId, prisonerName);
    PayloadReadsBack(account, amountVnd, memo);
  }
}
