/** What a transfer code and its memo say. */
module PaymentEffects {
  // Field by field and character by character: the whole payload (vietqr-payload.ts), the folded
  // name (ascii-fold.ts), the memo (bank-memo.ts) and when a kiosk order carries a code
  // (kiosk.service.ts).

  import opened Numerals
  import opened VietQr
  import opened BankMemo
  import Orders
  import Accounts
  import Kiosk
  import OrderEffects

  // ---------------------------------------------------------------------------------- numerals

  /** A numeral has no leading zero, so it is the shortest text that reads as the number. */
  lemma {:induction false} NumeralIsCanonical(n: nat, base: nat)
    requires 2 <= base <= 16
    ensures n > 0 ==> Numeral(n, base)[0] != '0'
    ensures n == 0 ==> Numeral(n, base) == "0"
  {
    if n >= base {
      DivMod(n, base);
      assert n / base > 0 by {
        assert n / base * base + n % base == n && n % base < base;
      }
      NumeralIsCanonical(n / base, base);
    }
  }

  // ----------------------------------------------------------------------------------- payload

  ghost predicate ReadsAs(text: string, account: BankAccount, amountVnd: nat, memo: string,
                          inner: string, merchant: string, additional: string, checksum: string) {
    && Read(text) == Some([Field("00", "01"), Field("01", "12"), Field("38", merchant), Field("53", "704"),
                           Field("54", Numeral(amountVnd, 10)), Field("58", "VN"), Field("62", additional),
                           Field("63", checksum)])
    && Read(merchant) == Some([Field("00", "A000000727"), Field("01", inner), Field("02", "QRIBFTTA")])
    && Read(inner) == Some([Field("00", account.bankBin), Field("01", account.accountNumber)])
    && Read(additional) == Some([Field("08", memo)])
    && |checksum| == 4 && |text| >= 8 && text[|text| - 8..] == "6304" + checksum
  }

  lemma TopFieldsAre(merchant: string, amountVnd: nat, additional: string, checksum: string)
    ensures TopFields(merchant, amountVnd, additional) + [Field("63", checksum)]
            == [Field("00", "01"), Field("01", "12"), Field("38", merchant), Field("53", "704"),
                Field("54", Numeral(amountVnd, 10)), Field("58", "VN"), Field("62", additional), Field("63", checksum)]
  {
    hide Numeral;
  }

  lemma TailOf(front: string, checksum: string)
    requires |checksum| == 4
    ensures var text := front + "6304" + checksum;
            |text| >= 8 && text[|text| - 8..] == "6304" + checksum
  {
  }

  /** The fields of a payload, tag by tag: format 01, dynamic, the NAPAS account with bank code and
      number, currency 704, the amount in decimals, country VN, the memo and the checksum. */
  lemma PayloadFields(account: BankAccount, amountVnd: int, memo: string)
    requires 0 < amountVnd <= 9007199254740991 && |memo| <= 95 && IsMemo(memo)
    requires |account.bankBin| == 6 && AllDigits(account.bankBin)
    requires 6 <= |account.accountNumber| <= 19 && AllDigits(account.accountNumber)
    ensures Payload(account, amountVnd, memo).Ok?
    ensures exists inner, merchant, additional, checksum ::
              ReadsAs(Payload(account, amountVnd, memo).text, account, amountVnd, memo, inner, merchant, additional, checksum)
  {
    PartsRead(account, amountVnd, memo);
    var inner := Write(AccountFields(account)).text;
    var merchant := Write(MerchantFields(inner)).text;
    var additional := Write([Field("08", memo)]).text;
    var top := TopFields(merchant, amountVnd, additional);
    var front := Write(top).text;
    var body := front + "6304";
    var checksum := Checksum(body);
    hide Write, Read, Numeral, Checksum, ChecksumMatches, ReadPayload, TopFields;
    assert Body(account, amountVnd, memo) == Ok(body);
    ChecksumIsFour(body);
    TopFits(account, amountVnd, memo, merchant, additional);
    ClosedBody(top, body);
    TopFieldsAre(merchant, amountVnd, additional, checksum);
    TailOf(front, checksum);
    assert Payload(account, amountVnd, memo) == Ok(body + checksum);
    assert ReadsAs(body + checksum, account, amountVnd, memo, inner, merchant, additional, checksum);
  }

  /** Which error a refused payload answers: the first, in this order, that applies. */
  lemma PayloadRefusedBecause(account: BankAccount, amountVnd: int, memo: string)
    requires Payload(account, amountVnd, memo).Err?
    ensures Payload(account, amountVnd, memo).error
            == (if amountVnd < 1 then BadAmount
                else if |account.bankBin| != 6 || !AllDigits(account.bankBin) then BadBin
                else if |account.accountNumber| < 6 || |account.accountNumber| > 19 || !AllDigits(account.accountNumber)
                then BadAccount
                else if !IsMemo(memo) then BadMemo
                else TooLong)
  {
    hide Numeral;
    WriteFailsLong(AccountFields(account));
    if Write(AccountFields(account)).Ok? {
      var inner := Write(AccountFields(account)).text;
      WriteFailsLong(MerchantFields(inner));
      WriteFailsLong([Field("08", memo)]);
      if Write(MerchantFields(inner)).Ok? && Write([Field("08", memo)]).Ok? && amountVnd >= 0 {
        WriteFailsLong(TopFields(Write(MerchantFields(inner)).text, amountVnd, Write([Field("08", memo)]).text));
      }
    }
    hide Write;
  }

  lemma {:induction false} WriteFailsLong(fields: seq<Field>)
    ensures Write(fields).Err? ==> Write(fields).error == TooLong
  {
    if fields != [] {
      WriteFailsLong(fields[1..]);
    }
  }

  // ---------------------------------------------------------------------------------- the fold

  /** The fold of a text that is already decomposed and in upper case. */
  function Folded(s: string): string {
    AsciiFold((t: string) => t, s)
  }

  /** Any name folds as what decomposing and upper-casing make of it. */
  lemma FoldIsFolded(plain: string -> string, name: string)
    ensures AsciiFold(plain, name) == Folded(plain(name))
  {
  }

  /** A tidy text folds to itself. */
  lemma TidyFoldsToItself(s: string)
    requires Tidy(s)
    ensures Folded(s) == s
  {
    assert KeepAscii(s) == s;
    SingleSpacedStays(s);
  }

  lemma {:induction false} SingleSpacedStays(s: string)
    requires SingleSpaced(s)
    ensures Collapse(s) == s
  {
    if |s| > 1 {
      assert !(s[0] == ' ' && s[1] == ' ');
      assert SingleSpaced(s[1..]) by {
        forall i | 0 <= i < |s[1..]| - 1 ensures !(s[1..][i] == ' ' && s[1..][i + 1] == ' ') {
          assert s[1..][i] == s[i + 1] && s[1..][i + 1] == s[i + 2];
        }
      }
      SingleSpacedStays(s[1..]);
    }
  }

  /** A character outside the alphabet acts as a space. */
  lemma OthersActAsSpaces(a: string, c: char, b: string)
    requires !('A' <= c <= 'Z' || '0' <= c <= '9')
    ensures Folded(a + [c] + b) == Folded(a + " " + b)
  {
    assert KeepAscii(a + [c] + b) == KeepAscii(a + " " + b);
  }

  lemma {:induction false} CollapsedPair(a: string, b: string)
    ensures Collapse(a + "  " + b) == Collapse(a + " " + b)
  {
    var s, t := a + "  " + b, a + " " + b;
    if a == "" {
      assert s[1..] == t;
    } else {
      CollapsedPair(a[1..], b);
      assert s[1..] == a[1..] + "  " + b && t[1..] == a[1..] + " " + b;
      assert |a| > 1 ==> s[1] == a[1] == t[1];
    }
  }

  /** Two spaces fold as one. */
  lemma TwoSpacesAreOne(a: string, b: string)
    ensures Folded(a + "  " + b) == Folded(a + " " + b)
  {
    var x, y := KeepAscii(a), KeepAscii(b);
    assert KeepAscii(a + "  " + b) == x + "  " + y;
    assert KeepAscii(a + " " + b) == x + " " + y;
    CollapsedPair(x, y);
  }

  /** A space in front folds to nothing. */
  lemma LeadingSpaceVanishes(s: string)
    ensures Folded(" " + s) == Folded(s)
  {
    var t := KeepAscii(s);
    assert KeepAscii(" " + s) == " " + t;
    if t == "" {
      assert Trim(" ") == "" by {
        assert TrimLeft(" ") == TrimLeft("") == "";
      }
    } else {
      assert (" " + t)[1..] == t;
      if t[0] == ' ' {
        assert Collapse(" " + t) == Collapse(t);
      } else {
        assert Collapse(" " + t) == " " + Collapse(t);
        assert (" " + Collapse(t))[1..] == Collapse(t);
      }
    }
  }

  lemma {:induction false} CollapsedEnd(s: string)
    requires s != "" && s[|s| - 1] != ' '
    ensures Collapse(s + " ") == Collapse(s) + " "
  {
    var t := s + " ";
    if |s| == 1 {
      assert t[1..] == " ";
    } else {
      assert s[1..][|s[1..]| - 1] == s[|s| - 1];
      CollapsedEnd(s[1..]);
      assert t[1..] == s[1..] + " " && t[1] == s[1];
    }
  }

  lemma {:induction false} TrimmedEnd(s: string)
    ensures Trim(s + " ") == Trim(s)
  {
    if s == "" {
      assert TrimLeft(" ") == TrimLeft("") == "";
    } else if s[0] == ' ' {
      TrimmedEnd(s[1..]);
      assert (s + " ")[1..] == s[1..] + " ";
    } else {
      assert (s + " ")[..|s|] == s;
    }
  }

  /** A space behind folds to nothing. */
  lemma TrailingSpaceVanishes(s: string)
    ensures Folded(s + " ") == Folded(s)
  {
    var t := KeepAscii(s);
    assert KeepAscii(s + " ") == t + " ";
    if t != "" && t[|t| - 1] == ' ' {
      var u := t[..|t| - 1];
      assert t + " " == u + "  " + "" && t == u + " " + "";
      CollapsedPair(u, "");
    } else {
      if t == "" {
        assert Collapse(t + " ") == Collapse(t) + " ";
      } else {
        CollapsedEnd(t);
      }
      TrimmedEnd(Collapse(t));
    }
  }

  // ---------------------------------------------------------------------------------- the memo

  /** The code is the first eight characters of the order's identifier in upper case. */
  lemma CodeIs(id: string, i: nat)
    requires IsOrderId(id) && i < 8
    ensures var c := ConfirmationCode(id)[i];
            && ('a' <= id[i] <= 'f' ==> 'A' <= c <= 'F' && c as int - 'A' as int == id[i] as int - 'a' as int)
            && (!('a' <= id[i] <= 'f') ==> c == id[i])
  {
    UpperIs(id[i]);
  }

  lemma UpperIs(c: char)
    ensures 'a' <= c <= 'f' ==> 'A' <= Upper(c) <= 'F' && Upper(c) as int - 'A' as int == c as int - 'a' as int
    ensures !('a' <= c <= 'f') ==> Upper(c) == c
  {
    if 'a' <= c <= 'f' {
      var upper := "ABCDEF";
      assert Upper(c) == upper[c as int - 'a' as int];
      assert forall k | 0 <= k < 6 :: upper[k] as int == 'A' as int + k;
    }
  }

  lemma TrimTidyEnd(s: string)
    requires s != "" && s[0] != ' ' && (|s| > 1 ==> s[|s| - 1] != ' ' || s[|s| - 2] != ' ')
    ensures Trim(s) == if s[|s| - 1] == ' ' then s[..|s| - 1] else s
  {
    if s[|s| - 1] == ' ' {
      var t := s[..|s| - 1];
      assert |s| > 1 && t[|t| - 1] == s[|s| - 2];
      assert TrimRight(t) == t && TrimLeft(s) == s;
    }
  }

  /** The memo is the code and, if the folded name is not empty, a space and its first 16 characters
      without a space at the end. */
  lemma MemoIs(plain: string -> string, orderId: string, name: string)
    requires IsOrderId(orderId)
    ensures var folded := AsciiFold(plain, name);
            Memo(plain, orderId, name)
            == ConfirmationCode(orderId)
               + (if folded == "" then ""
                  else if |folded| <= 16 then " " + folded
                  else if folded[15] == ' ' then " " + folded[..15] else " " + folded[..16])
  {
    var folded := AsciiFold(plain, name);
    FoldIsTidy(plain, name);
    hide AsciiFold, ConfirmationCode;
    if folded != "" {
      var part := if |folded| <= 16 then folded else folded[..16];
      if |folded| > 16 {
        assert part[14] == folded[14] && part[15] == folded[15];
      }
      TrimTidyEnd(part);
      assert |folded| > 16 ==> folded[..16][..15] == folded[..15];
      hide Trim;
      var code := ConfirmationCode(orderId);
      assert code + " " + Trim(part) == code + (" " + Trim(part));
    } else {
      assert ConfirmationCode(orderId) + "" == ConfirmationCode(orderId);
    }
  }

  // --------------------------------------------------------------------------------- the kiosk

  /** A kiosk order is stored as a visitor's pending order for that prisoner and day, unpaid, with
      the tender chosen; it replaces nothing and moves no money. */
  lemma KioskOrderIs(db: Orders.Db, env: Orders.Env, date: Orders.Date, user: Accounts.User, lines: seq<Orders.Line>,
                     tender: Orders.Tender)
    requires Orders.Inv(db) && Orders.Create(db, env, Kiosk.KioskInput(date, user, lines, tender)).1.Done?
    ensures var (after, made) := Orders.Create(db, env, Kiosk.KioskInput(date, user, lines, tender));
            && !made.replaced && made.order == |db.orders| == |after.orders| - 1
            && after.books == db.books && (forall k | 0 <= k < |db.orders| :: after.orders[k] == db.orders[k])
            && var o := after.orders[|db.orders|];
            && o.date == date && o.user == user && o.source == Orders.Relative && o.status == Orders.Active
            && !o.paid && o.tender == Orders.Some(tender) && o.reference == Orders.None && o.supersededBy == Orders.None
  {
    var input := Kiosk.KioskInput(date, user, lines, tender);
    OrderEffects.CreatedExactlyWhen(db, env, input);
    OrderEffects.CreateWrites(db, env, input);
  }

  /** No code for cash, and none without a configured account. */
  lemma CodeOnlyForTransfers(config: Option<BankAccount>, tender: Orders.Tender, total: int, id: string, name: string,
                             plain: string -> string)
    requires IsOrderId(id)
    ensures Kiosk.Attach(config, tender, total, id, name, plain).NotAsked? <==> tender != Orders.Bank
    ensures Kiosk.Attach(config, tender, total, id, name, plain).Unconfigured? <==> tender == Orders.Bank && config == None
  {
    hide Payload, Memo;
  }
}
