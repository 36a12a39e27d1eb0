/** The VietQR payload. */
module VietQr {
  // After vietqr-payload.ts: nested TLV fields and a checksum, with the reader a bank application
  // would use.  Texts are ASCII, so one character is one byte.

  import opened Numerals
  import CrcRegister
  import Crc16
  import CrcTheory

  datatype Option<+T> = None | Some(value: T)

  datatype Error = BadAmount | BadBin | BadAccount | BadMemo | TooLong
  datatype Result = Ok(text: string) | Err(error: Error)

  datatype BankAccount = BankAccount(bankBin: string, accountNumber: string)

  datatype Field = Field(id: string, value: string)

  const MAX_SAFE_INTEGER := 9007199254740991

  predicate AllDigits(s: string) {
    forall i | 0 <= i < |s| :: IsDigit(s[i])
  }

  predicate IsMemoChar(c: char) {
    'A' <= c <= 'Z' || IsDigit(c) || c == ' '
  }

  predicate IsMemo(s: string) {
    forall i | 0 <= i < |s| :: IsMemoChar(s[i])
  }

  // ---------------------------------------------------------------------------------- writing

  function Length(n: nat): string {
    PadStart(Numeral(n, 10), 2)
  }

  function Tlv(f: Field): Result {
    if |f.value| > 99 then Err(TooLong) else Ok(f.id + Length(|f.value|) + f.value)
  }

  /** Fields written one after the other. */
  function Write(fields: seq<Field>): Result {
    if fields == [] then Ok("")
    else
      match Tlv(fields[0])
      case Err(e) => Err(e)
      case Ok(first) =>
        match Write(fields[1..])
        case Err(e) => Err(e)
        case Ok(rest) => Ok(first + rest)
  }

  function AccountFields(account: BankAccount): seq<Field> {
    [Field("00", account.bankBin), Field("01", account.accountNumber)]
  }

  function MerchantFields(account: string): seq<Field> {
    [Field("00", "A000000727"), Field("01", account), Field("02", "QRIBFTTA")]
  }

  function TopFields(merchant: string, amountVnd: nat, additional: string): seq<Field> {
    [Field("00", "01"), Field("01", "12"), Field("38", merchant), Field("53", "704"),
     Field("54", Numeral(amountVnd, 10)), Field("58", "VN"), Field("62", additional)]
  }

  function ByteOf(c: char): CrcRegister.Byte {
    (c as int % 256) as bv8
  }

  function Bytes(s: string): seq<CrcRegister.Byte> {
    seq(|s|, i requires 0 <= i < |s| => ByteOf(s[i]))
  }

  function CrcNumber(s: string): (n: nat)
    ensures n < 0x1_0000
  {
    Crc16.Crc(Bytes(s)) as nat
  }

  /** Four upper-case hexadecimal digits. */
  function Checksum(s: string): string {
    PadStart(Numeral(CrcNumber(s), 16), 4)
  }

  function Refusal(account: BankAccount, amountVnd: int, memo: string): Option<Error> {
    if amountVnd <= 0 then Some(BadAmount)
    else if !(|account.bankBin| == 6 && AllDigits(account.bankBin)) then Some(BadBin)
    else if !(6 <= |account.accountNumber| <= 19 && AllDigits(account.accountNumber)) then Some(BadAccount)
    else if !IsMemo(memo) then Some(BadMemo)
    else None
  }

  /** Everything up to and including the checksum's own tag and length. */
  function Body(account: BankAccount, amountVnd: int, memo: string): Result {
    if Refusal(account, amountVnd, memo).Some? then Err(Refusal(account, amountVnd, memo).value)
    else
      match Write(AccountFields(account))
      case Err(e) => Err(e)
      case Ok(inner) =>
        match Write(MerchantFields(inner))
        case Err(e) => Err(e)
        case Ok(merchant) =>
          match Write([Field("08", memo)])
          case Err(e) => Err(e)
          case Ok(additional) =>
            match Write(TopFields(merchant, amountVnd, additional))
            case Err(e) => Err(e)
            case Ok(withoutCrc) => Ok(withoutCrc + "6304")
  }

  function Payload(account: BankAccount, amountVnd: int, memo: string): Result {
    match Body(account, amountVnd, memo)
    case Err(e) => Err(e)
    case Ok(body) => Ok(body + Checksum(body))
  }

  method BuildVietQrPayload(account: BankAccount, amountVnd: int, memo: string) returns (r: Result)
    ensures r == Payload(account, amountVnd, memo)
  {
    var body := Body(account, amountVnd, memo);
    if body.Err? {
      return Err(body.error);
    }
    var crc := Crc16.Crc16Ccitt(Bytes(body.text));
    var number := (crc as bv16) as nat;
    return Ok(body.text + PadStart(Numeral(number, 16), 4));
  }

  // ---------------------------------------------------------------------------------- reading

  function Read(s: string): Option<seq<Field>>
    decreases |s|
  {
    if s == "" then Some([])
    else if |s| < 4 || !AllDigits(s[2..4]) then None
    else
      var n := Value(s[2..4], 10);
      if |s| < 4 + n then None
      else
        match Read(s[4 + n..])
        case None => None
        case Some(rest) => Some([Field(s[..2], s[4..4 + n])] + rest)
  }

  function Find(fields: seq<Field>, id: string): Option<string> {
    if fields == [] then None
    else if fields[0].id == id then Some(fields[0].value)
    else Find(fields[1..], id)
  }

  function Inside(outer: Option<string>, id: string): Option<string> {
    if outer.None? || Read(outer.value).None? then None else Find(Read(outer.value).value, id)
  }

  predicate ChecksumMatches(s: string) {
    |s| >= 4 && Checksum(s[..|s| - 4]) == s[|s| - 4..]
  }

  datatype Payment = Payment(account: BankAccount, amountVnd: nat, memo: string)

  function ReadPayload(s: string): Option<Payment> {
    if !ChecksumMatches(s) || Read(s).None? then None
    else
      var top := Read(s).value;
      var account := Inside(Find(top, "38"), "01");
      var bin, number := Inside(account, "00"), Inside(account, "01");
      var amount, memo := Find(top, "54"), Inside(Find(top, "62"), "08");
      if bin.None? || number.None? || amount.None? || memo.None? then None
      else Some(Payment(BankAccount(bin.value, number.value), Value(amount.value, 10), memo.value))
  }

  // -------------------------------------------------------------------------------- round trip

  ghost predicate Fit(fields: seq<Field>) {
    forall i | 0 <= i < |fields| :: |fields[i].id| == 2 && |fields[i].value| <= 99
  }

  function Size(fields: seq<Field>): nat {
    if fields == [] then 0 else 4 + |fields[0].value| + Size(fields[1..])
  }

  lemma LengthReads(n: nat)
    requires n <= 99
    ensures |Length(n)| == 2 && AllDigits(Length(n)) && Value(Length(n), 10) == n
  {
    assert Power(10, 0) == 1 && Power(10, 1) == 10 && Power(10, 2) == 100;
    PaddedReads(n, 10, 2);
  }

  lemma ReadNothing()
    ensures Read("") == Some([])
  {
  }

  /** Fields that fit are written, and read back as they were. */
  lemma {:induction false} ReadUndoesWrite(fields: seq<Field>)
    requires Fit(fields)
    ensures Write(fields).Ok? && |Write(fields).text| == Size(fields)
    ensures Read(Write(fields).text) == Some(fields)
  {
    hide Length, Value, Read, AllDigits;
    if fields == [] {
      ReadNothing();
    } else {
      var f, rest := fields[0], fields[1..];
      ReadUndoesWrite(rest);
      LengthReads(|f.value|);
      ReadFirst(f, Write(rest).text, rest);
      assert [f] + rest == fields;
    }
  }

  lemma ReadFirst(f: Field, tail: string, rest: seq<Field>)
    requires |f.id| == 2 && |f.value| <= 99 && Read(tail) == Some(rest)
    ensures Read(f.id + Length(|f.value|) + f.value + tail) == Some([f] + rest)
  {
    var n := |f.value|;
    var s := f.id + Length(n) + f.value + tail;
    LengthReads(n);
    hide Length, Value, Read;
    assert s[..2] == f.id && s[2..4] == Length(n) && s[4..4 + n] == f.value && s[4 + n..] == tail;
  }

  lemma {:induction false} WriteNeedsFit(fields: seq<Field>)
    requires Write(fields).Ok?
    ensures forall i | 0 <= i < |fields| :: |fields[i].value| <= 99
  {
    if fields != [] {
      WriteNeedsFit(fields[1..]);
    }
  }

  lemma WriteStep(fields: seq<Field>)
    requires fields != [] && Fit(fields)
    ensures Tlv(fields[0]).Ok? && Fit(fields[1..]) && Write(fields[1..]).Ok?
    ensures Write(fields) == Ok(Tlv(fields[0]).text + Write(fields[1..]).text)
  {
  }

  lemma FitBoth(fields: seq<Field>, more: seq<Field>)
    requires Fit(fields) && Fit(more)
    ensures Fit(fields + more)
  {
  }

  lemma WriteNothing()
    ensures Write([]) == Ok("")
  {
  }

  lemma {:induction false} WriteBoth(fields: seq<Field>, more: seq<Field>)
    requires Fit(fields) && Fit(more)
    ensures Write(fields).Ok? && Write(more).Ok?
    ensures Write(fields + more) == Ok(Write(fields).text + Write(more).text)
  {
    hide *;
    ReadUndoesWrite(fields);
    ReadUndoesWrite(more);
    if fields == [] {
      WriteNothing();
      assert fields + more == more && "" + Write(more).text == Write(more).text;
    } else {
      var rest := fields[1..];
      assert (fields + more)[1..] == rest + more && (fields + more)[0] == fields[0];
      WriteStep(fields);
      FitBoth(fields, more);
      WriteStep(fields + more);
      WriteBoth(rest, more);
      Associative(Tlv(fields[0]).text, Write(rest).text, Write(more).text);
    }
  }

  lemma Associative(a: string, b: string, c: string)
    ensures (a + b) + c == a + (b + c)
  {
  }

  lemma ChecksumIsFour(s: string)
    ensures |Checksum(s)| == 4 && Value(Checksum(s), 16) == CrcNumber(s)
  {
    assert Power(16, 0) == 1 && Power(16, 1) == 16 && Power(16, 2) == 256 && Power(16, 3) == 4096;
    assert Power(16, 4) == 65536;
    PaddedReads(CrcNumber(s), 16, 4);
  }

  predicate Payable(account: BankAccount, amountVnd: int, memo: string) {
    Refusal(account, amountVnd, memo).None? && amountVnd <= MAX_SAFE_INTEGER
  }

  lemma AmountIsShort(amountVnd: nat)
    requires amountVnd <= MAX_SAFE_INTEGER
    ensures |Numeral(amountVnd, 10)| <= 16
  {
    assert Power(10, 0) == 1 && Power(10, 4) == 10000;
    assert Power(10, 8) == 10000 * Power(10, 4);
    assert Power(10, 12) == 10000 * Power(10, 8);
    assert Power(10, 16) == 10000 * Power(10, 12);
    NumeralLength(amountVnd, 10, 16);
  }

  /** The written parts of a payload that fits, and what each of them reads as. */
  lemma PartsRead(account: BankAccount, amountVnd: int, memo: string)
    requires Payable(account, amountVnd, memo) && |memo| <= 95
    ensures Write(AccountFields(account)).Ok?
    ensures var inner := Write(AccountFields(account)).text;
            && Read(inner) == Some(AccountFields(account))
            && Write(MerchantFields(inner)).Ok?
            && var merchant := Write(MerchantFields(inner)).text;
            && Read(merchant) == Some(MerchantFields(inner))
            && Write([Field("08", memo)]).Ok?
            && var additional := Write([Field("08", memo)]).text;
            && Read(additional) == Some([Field("08", memo)])
            && Write(TopFields(merchant, amountVnd, additional)).Ok?
            && Read(Write(TopFields(merchant, amountVnd, additional)).text)
               == Some(TopFields(merchant, amountVnd, additional))
  {
    hide Write, Read, Numeral;
    var accountFields, memoFields := AccountFields(account), [Field("08", memo)];
    ReadUndoesWrite(accountFields);
    var inner := Write(accountFields).text;
    assert |inner| <= 33 by {
      TwoFields(accountFields[0], accountFields[1]);
    }
    var merchantFields := MerchantFields(inner);
    ReadUndoesWrite(merchantFields);
    var merchant := Write(merchantFields).text;
    assert |merchant| <= 99 by {
      ThreeFields(merchantFields[0], merchantFields[1], merchantFields[2]);
    }
    ReadUndoesWrite(memoFields);
    assert Size(memoFields) == 4 + |memo| by {
      assert memoFields[1..] == [];
    }
    AmountIsShort(amountVnd);
    ReadUndoesWrite(TopFields(merchant, amountVnd, Write(memoFields).text));
  }

  lemma TwoFields(a: Field, b: Field)
    ensures Size([a, b]) == 8 + |a.value| + |b.value|
  {
    assert [a, b][1..] == [b] && [b][1..] == [];
    assert Size([b]) == 4 + |b.value| + Size([]);
  }

  lemma ThreeFields(a: Field, b: Field, c: Field)
    ensures Size([a, b, c]) == 12 + |a.value| + |b.value| + |c.value|
  {
    assert [a, b, c][1..] == [b, c];
    TwoFields(b, c);
  }

  lemma WriteChecksumField(s: string)
    requires |s| == 4
    ensures Write([Field("63", s)]) == Ok("6304" + s)
  {
  }

  lemma PartsFound(account: BankAccount, amountVnd: nat, memo: string, inner: string, merchant: string,
                   additional: string, text: string, last: Field)
    requires Read(inner) == Some(AccountFields(account)) && Read(merchant) == Some(MerchantFields(inner))
    requires Read(additional) == Some([Field("08", memo)])
    requires ChecksumMatches(text) && Read(text) == Some(TopFields(merchant, amountVnd, additional) + [last])
    ensures ReadPayload(text) == Some(Payment(account, amountVnd, memo))
  {
    hide Read, Numeral, Value, ChecksumMatches, Find;
    var top := TopFields(merchant, amountVnd, additional) + [last];
    FindAt(top, 2);
    FindAt(top, 4);
    FindAt(top, 6);
    FindAt(MerchantFields(inner), 1);
    FindAt(AccountFields(account), 0);
    FindAt(AccountFields(account), 1);
    FindAt([Field("08", memo)], 0);
    NumeralReads(amountVnd, 10);
  }

  /** A payload that fits is written, and the reader, checking the checksum and taking the nested
      fields apart, gets back exactly the account, the amount and the memo. */
  lemma PayloadReadsBack(account: BankAccount, amountVnd: int, memo: string)
    requires Payable(account, amountVnd, memo) && |memo| <= 95
    ensures Payload(account, amountVnd, memo).Ok?
    ensures ReadPayload(Payload(account, amountVnd, memo).text) == Some(Payment(account, amountVnd, memo))
  {
    PartsRead(account, amountVnd, memo);
    hide Write, Read, Numeral, Checksum, Refusal, ChecksumMatches, ReadPayload, TopFields, MerchantFields, AccountFields;
    var inner := Write(AccountFields(account)).text;
    var merchant := Write(MerchantFields(inner)).text;
    var additional := Write([Field("08", memo)]).text;
    var top := TopFields(merchant, amountVnd, additional);
    var body := Write(top).text + "6304";
    assert Body(account, amountVnd, memo) == Ok(body);
    TopFits(account, amountVnd, memo, merchant, additional);
    ClosedBody(top, body);
    PartsFound(account, amountVnd, memo, inner, merchant, additional, body + Checksum(body), Field("63", Checksum(body)));
  }

  lemma TopFits(account: BankAccount, amountVnd: nat, memo: string, merchant: string, additional: string)
    requires Write(TopFields(merchant, amountVnd, additional)).Ok?
    ensures Fit(TopFields(merchant, amountVnd, additional))
  {
    WriteNeedsFit(TopFields(merchant, amountVnd, additional));
    hide Write, Numeral;
  }

  /** The checksum is itself the last field, so the whole payload is one list of fields. */
  lemma ClosedBody(top: seq<Field>, body: string)
    requires Fit(top) && Write(top).Ok? && body == Write(top).text + "6304"
    ensures var text := body + Checksum(body);
            ChecksumMatches(text) && Read(text) == Some(top + [Field("63", Checksum(body))])
  {
    var checksum := Checksum(body);
    var last := [Field("63", checksum)];
    ChecksumIsFour(body);
    ChecksumAtTheEnd(body);
    WriteChecksumField(checksum);
    assert Fit(last);
    hide *;
    WriteBoth(top, last);
    Associative(Write(top).text, "6304", checksum);
    FitBoth(top, last);
    ReadUndoesWrite(top + last);
  }

  lemma ChecksumAtTheEnd(body: string)
    ensures ChecksumMatches(body + Checksum(body))
  {
    ChecksumIsFour(body);
    hide Checksum;
    var text := body + Checksum(body);
    assert text[..|text| - 4] == body && text[|text| - 4..] == Checksum(body);
  }

  lemma {:induction false} FindAt(fields: seq<Field>, i: nat)
    requires i < |fields| && forall j | 0 <= j < i :: fields[j].id != fields[i].id
    ensures Find(fields, fields[i].id) == Some(fields[i].value)
  {
    if i > 0 {
      FindAt(fields[1..], i - 1);
    }
  }

  /** Among safe-integer amounts a payload is built exactly for a positive amount, a six-digit
      bank code, an account of 6 to 19 digits and a folded memo of at most 95 characters. */
  lemma BuiltExactlyWhen(account: BankAccount, amountVnd: int, memo: string)
    requires amountVnd <= MAX_SAFE_INTEGER
    ensures Payload(account, amountVnd, memo).Ok? <==>
              && amountVnd > 0
              && |account.bankBin| == 6 && AllDigits(account.bankBin)
              && 6 <= |account.accountNumber| <= 19 && AllDigits(account.accountNumber)
              && IsMemo(memo) && |memo| <= 95
  {
    if Payable(account, amountVnd, memo) && |memo| <= 95 {
      PayloadReadsBack(account, amountVnd, memo);
    }
    if Payload(account, amountVnd, memo).Ok? {
      MemoFits(account, amountVnd, memo);
    }
  }

  lemma MemoFits(account: BankAccount, amountVnd: int, memo: string)
    requires Body(account, amountVnd, memo).Ok?
    ensures |memo| <= 95
  {
    var memoFields := [Field("08", memo)];
    var inner := Write(AccountFields(account)).text;
    var merchant := Write(MerchantFields(inner)).text;
    var additional := Write(memoFields).text;
    var top := TopFields(merchant, amountVnd, additional);
    hide Write, Numeral, Read;
    WriteNeedsFit(memoFields);
    assert memoFields[0].value == memo && |memo| <= 99;
    ReadUndoesWrite(memoFields);
    assert Size(memoFields) == 4 + |memo| by {
      assert memoFields[1..] == [];
    }
    WriteNeedsFit(top);
    assert top[6].value == additional;
  }

  // ----------------------------------------------------------------------------------- damage

  lemma SameCrc(a: bv16, b: bv16)
    requires a as nat == b as nat
    ensures a == b
  {
    assert (a as nat) as bv16 == a && (b as nat) as bv16 == b;
  }

  /** A payload damaged before its checksum, within sixteen consecutive bits, never passes the
      reader's check. */
  lemma DamageIsNoticed(s: string, t: string, from: nat, width: nat)
    requires ChecksumMatches(s) && |t| == |s| && t[|t| - 4..] == s[|s| - 4..] && width <= 16
    requires var a, b := Bytes(s[..|s| - 4]), Bytes(t[..|t| - 4]);
             && a != b
             && var x, y := Crc16.MessageBits(a), Crc16.MessageBits(b);
             |x| == |y| && forall i | 0 <= i < |x| && !(from <= i < from + width) :: x[i] == y[i]
    ensures !ChecksumMatches(t) && ReadPayload(t) == None
  {
    var p, q := s[..|s| - 4], t[..|t| - 4];
    CrcTheory.BurstsAreDetected(Bytes(p), Bytes(q), from, width);
    ChecksumIsFour(p);
    ChecksumIsFour(q);
    if CrcNumber(p) == CrcNumber(q) {
      SameCrc(Crc16.Crc(Bytes(p)), Crc16.Crc(Bytes(q)));
    }
  }
}
