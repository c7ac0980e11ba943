/**
The acceptance rules of the uplink receiver (contract.py): line stripping,
comma splitting, strict integer tokens, per-field ranges.
*/
module ReceiverContract {
  import opened Wrappers
  import opened Decimal

  datatype Field =
    | Ver | Seq | Rpm | Torque | MotorErr | MotorValid | MotorTimeout
    | CellVMax | CellVMin | TempH | TempL | SysState | PackV | Current
    | Soc | BmsValid | TsMs | SpdX10

  datatype UksRejection = ParseFail | BadTag | BadVersion | RangeFail

  type Frame = map<Field, int>

  const TOKEN_COUNT: nat := 19
  const VER: int := 2
  const U32_MAX: int := 4294967295
  const TEL_RPM_MAX: int := 20000

  const FIELD_COUNT: nat := 18

  /** FIELD_ORDER: the position of each field on the line, the tag not counted. */
  function FieldIndex(f: Field): (k: nat)
    ensures k < FIELD_COUNT && FieldAt(k) == f
  {
    match f
    case Ver => 0 case Seq => 1 case Rpm => 2 case Torque => 3 case MotorErr => 4
    case MotorValid => 5 case MotorTimeout => 6 case CellVMax => 7 case CellVMin => 8
    case TempH => 9 case TempL => 10 case SysState => 11 case PackV => 12
    case Current => 13 case Soc => 14 case BmsValid => 15 case TsMs => 16 case SpdX10 => 17
  }

  function FieldAt(k: nat): Field
    requires k < FIELD_COUNT
  {
    match k
    case 0 => Ver case 1 => Seq case 2 => Rpm case 3 => Torque case 4 => MotorErr
    case 5 => MotorValid case 6 => MotorTimeout case 7 => CellVMax case 8 => CellVMin
    case 9 => TempH case 10 => TempL case 11 => SysState case 12 => PackV
    case 13 => Current case 14 => Soc case 15 => BmsValid case 16 => TsMs case _ => SpdX10
  }

  lemma CheckedFields()
    ensures FieldIndex(Ver) == 0 && FieldIndex(Rpm) == 2
  {
  }

  lemma FieldPosition(k: nat)
    requires k < FIELD_COUNT
    ensures FieldIndex(FieldAt(k)) == k
  {
  }

  function FieldMin(f: Field): int {
    match f
    case Torque => -32768
    case TempH => -128
    case TempL => -128
    case SysState => 1
    case Current => -2147483647
    case _ => 0
  }

  function FieldMax(f: Field): int {
    match f
    case Ver => 255
    case Seq => U32_MAX
    case Rpm => 65535
    case Torque => 32767
    case MotorErr => 255
    case MotorValid => 1
    case MotorTimeout => 1
    case CellVMax => 65535
    case CellVMin => 65535
    case TempH => 127
    case TempL => 127
    case SysState => 4
    case PackV => 65535
    case Current => 2147483647
    case Soc => 10000
    case BmsValid => 1
    case TsMs => U32_MAX
    case SpdX10 => 3000
  }

  // ------------------------------------------------------------------
  // Splitting and joining
  // ------------------------------------------------------------------

  predicate IsLineEnd(c: char) {
    c == '\r' || c == '\n'
  }

  /** Python's `line.rstrip("\r\n")`. */
  function StripLineEnd(s: string): string {
    if s != "" && IsLineEnd(s[|s| - 1]) then StripLineEnd(s[..|s| - 1]) else s
  }

  /** Python's `s.split(",")`. */
  function Split(s: string): (parts: seq<string>)
    ensures parts != []
  {
    if s == "" then [""]
    else
      var rest := Split(s[1..]);
      if s[0] == ',' then [""] + rest else [[s[0]] + rest[0]] + rest[1..]
  }

  function Join(parts: seq<string>): string
    requires parts != []
  {
    if |parts| == 1 then parts[0] else parts[0] + "," + Join(parts[1..])
  }

  predicate Plain(s: string) {
    forall k :: 0 <= k < |s| ==> s[k] != ',' && !IsLineEnd(s[k])
  }

  lemma {:induction false} SplitPlain(s: string)
    requires Plain(s)
    ensures Split(s) == [s]
  {
    if s != "" {
      SplitPlain(s[1..]);
      assert [s[0]] + s[1..] == s;
    }
  }

  lemma {:induction false} SplitAtComma(s: string, rest: string)
    requires Plain(s)
    ensures Split(s + "," + rest) == [s] + Split(rest)
  {
    var whole := s + "," + rest;
    if s == "" {
      assert whole[1..] == rest;
    } else {
      SplitAtComma(s[1..], rest);
      assert whole[1..] == s[1..] + "," + rest;
      assert [s[0]] + s[1..] == s;
    }
  }

  /** Splitting undoes joining. */
  lemma {:induction false} SplitJoin(parts: seq<string>)
    requires parts != []
    requires forall k :: 0 <= k < |parts| ==> Plain(parts[k])
    ensures Split(Join(parts)) == parts
  {
    if |parts| == 1 {
      SplitPlain(parts[0]);
    } else {
      SplitAtComma(parts[0], Join(parts[1..]));
      SplitJoin(parts[1..]);
    }
  }

  /** Joining undoes splitting. */
  lemma {:induction false} JoinSplit(s: string)
    ensures Join(Split(s)) == s
  {
    if s != "" {
      JoinSplit(s[1..]);
      var rest := Split(s[1..]);
      if s[0] == ',' {
        assert ([""] + rest)[1..] == rest;
        assert "" + "," + s[1..] == s;
      } else {
        var parts := [[s[0]] + rest[0]] + rest[1..];
        if |rest| > 1 {
          assert parts[1..] == rest[1..];
          assert Join(parts) == [s[0]] + Join(rest);
        }
        assert [s[0]] + s[1..] == s;
      }
    }
  }

  /** Joined plain parts do not end in a line end. */
  lemma {:induction false} JoinKeepsTail(parts: seq<string>)
    requires parts != []
    requires forall k :: 0 <= k < |parts| ==> Plain(parts[k])
    ensures Join(parts) == "" || !IsLineEnd(Join(parts)[|Join(parts)| - 1])
  {
    if |parts| > 1 {
      JoinKeepsTail(parts[1..]);
      var tail := Join(parts[1..]);
      var whole := Join(parts);
      if tail != "" {
        assert whole[|whole| - 1] == tail[|tail| - 1];
      }
    }
  }

  lemma StripCrLf(s: string)
    requires s == "" || !IsLineEnd(s[|s| - 1])
    ensures StripLineEnd(s + "\r\n") == s
  {
    var line := s + "\r\n";
    assert line[..|line| - 1] == s + "\r";
    assert line[|line| - 1] == '\n';
    var shorter := s + "\r";
    assert shorter[..|shorter| - 1] == s;
    assert StripLineEnd(shorter) == StripLineEnd(s);
  }

  lemma PrintedIntegersArePlain(i: int)
    ensures Plain(Signed(i))
  {
    var n := if i < 0 then -i else i;
    assert AllDigits(Unsigned(n));
  }

  // ------------------------------------------------------------------
  // Acceptance
  // ------------------------------------------------------------------

  /** The token of field number k is a strict integer in the field's range. */
  predicate TokenOk(f: Field, tok: string) {
    && IsStrictToken(tok, FieldMin(f) < 0)
    && FieldMin(f) <= TokenInt(tok) <= FieldMax(f)
  }

  /** `int(tok)` where the token is well formed (0 elsewhere, where it is never used). */
  function TokenInt(tok: string): int {
    if IsStrictToken(tok, true) then TokenValue(tok) else 0
  }

  predicate TokensOk(fields: seq<string>, n: nat)
    requires |fields| == TOKEN_COUNT
  {
    forall f: Field :: FieldIndex(f) < n ==> TokenOk(f, fields[FieldIndex(f) + 1])
  }

  /** The first n fields, each bound to the integer its token denotes. */
  function FrameOfTokens(fields: seq<string>, n: nat): Frame
    requires |fields| == TOKEN_COUNT
  {
    map f: Field | FieldIndex(f) < n :: TokenInt(fields[FieldIndex(f) + 1])
  }

  /** What the receiver accepts, stated without the order of the scan. */
  function ReceiverVerdict(line: string): Result<Frame, UksRejection> {
    var fields := Split(StripLineEnd(line));
    if |fields| != TOKEN_COUNT then Failure(ParseFail)
    else if fields[0] != "TEL" then Failure(BadTag)
    else if !TokensOk(fields, FIELD_COUNT) then Failure(ParseFail)
    else if TokenInt(fields[1]) != VER then Failure(BadVersion)
    else if TokenInt(fields[3]) > TEL_RPM_MAX then Failure(RangeFail)
    else Success(FrameOfTokens(fields, FIELD_COUNT))
  }

  /** Reading one more token extends the check and the frame by that field alone. */
  lemma NextField(fields: seq<string>, k: nat)
    requires |fields| == TOKEN_COUNT && k < FIELD_COUNT
    ensures TokensOk(fields, k + 1) <==> TokensOk(fields, k) && TokenOk(FieldAt(k), fields[k + 1])
    ensures !TokenOk(FieldAt(k), fields[k + 1]) ==> !TokensOk(fields, FIELD_COUNT)
    ensures FrameOfTokens(fields, k + 1) == FrameOfTokens(fields, k)[FieldAt(k) := TokenInt(fields[k + 1])]
  {
    hide FieldIndex, FieldAt, TokenOk, TokenInt;
    FieldPosition(k);
    if !TokenOk(FieldAt(k), fields[k + 1]) {
      assert FieldIndex(FieldAt(k)) < k + 1;
    }
  }

  /** The scan over the tokens, with its early exits. */
  method ScanFields(fields: seq<string>) returns (r: Result<Frame, UksRejection>)
    requires |fields| == TOKEN_COUNT
    ensures r == if TokensOk(fields, FIELD_COUNT) then Success(FrameOfTokens(fields, FIELD_COUNT))
                 else Failure(ParseFail)
  {
    hide FieldIndex, FieldAt, FieldMin, FieldMax, FrameOfTokens, TokensOk;
    NoFieldsYet(fields);
    var values: Frame := map[];
    for k := 0 to FIELD_COUNT
      invariant TokensOk(fields, k)
      invariant values == FrameOfTokens(fields, k)
    {
      var name, tok := FieldAt(k), fields[k + 1];
      NextField(fields, k);
      if !IsStrictToken(tok, FieldMin(name) < 0) {
        return Failure(ParseFail);
      }
      var v := TokenValue(tok);
      if v < FieldMin(name) || v > FieldMax(name) {
        return Failure(ParseFail);
      }
      values := values[name := v];
    }
    return Success(values);
  }

  lemma NoFieldsYet(fields: seq<string>)
    requires |fields| == TOKEN_COUNT
    ensures TokensOk(fields, 0) && FrameOfTokens(fields, 0) == map[]
  {
  }

  /** `parse_uks_frame`. */
  method ParseUksFrame(line: string) returns (r: Result<Frame, UksRejection>)
    ensures r == ReceiverVerdict(line)
  {
    hide FieldIndex, FieldAt, FieldMin, FieldMax, Split, StripLineEnd, TokensOk, TokenInt;
    var fields := Split(StripLineEnd(line));
    if |fields| != TOKEN_COUNT {
      return Failure(ParseFail);
    }
    if fields[0] != "TEL" {
      return Failure(BadTag);
    }
    r := ScanFields(fields);
    if r.Failure? {
      return;
    }
    CheckedFields();
    if r.value[Ver] != VER {
      return Failure(BadVersion);
    }
    if r.value[Rpm] > TEL_RPM_MAX {
      return Failure(RangeFail);
    }
  }

  /** Every field is bound. */
  ghost predicate Complete(f: Frame) {
    forall x: Field :: x in f
  }

  ghost predicate InRange(f: Frame)
    requires Complete(f)
  {
    forall x: Field :: FieldMin(x) <= f[x] <= FieldMax(x)
  }

  function Tokens(f: Frame): (parts: seq<string>)
    requires Complete(f)
    ensures |parts| == TOKEN_COUNT
  {
    ["TEL"] + seq(FIELD_COUNT, k requires 0 <= k < FIELD_COUNT => Signed(f[FieldAt(k)]))
  }

  /** `build_tel_line`. */
  function BuildTelLine(f: Frame): string
    requires Complete(f)
  {
    Join(Tokens(f)) + "\r\n"
  }

  lemma TokensOfBuiltLine(f: Frame)
    requires Complete(f)
    ensures Split(StripLineEnd(BuildTelLine(f))) == Tokens(f)
  {
    var parts := Tokens(f);
    forall k | 0 <= k < |parts| ensures Plain(parts[k]) {
      if k > 0 {
        PrintedIntegersArePlain(f[FieldAt(k - 1)]);
      }
    }
    JoinKeepsTail(parts);
    StripCrLf(Join(parts));
    SplitJoin(parts);
  }

  lemma TagOfTokens(f: Frame)
    requires Complete(f)
    ensures Tokens(f)[0] == "TEL"
  {
  }

  lemma PrintedToken(f: Frame, x: Field)
    requires Complete(f)
    ensures TokenOk(x, Tokens(f)[FieldIndex(x) + 1]) <==> FieldMin(x) <= f[x] <= FieldMax(x)
    ensures TokenInt(Tokens(f)[FieldIndex(x) + 1]) == f[x]
  {
    assert Tokens(f)[FieldIndex(x) + 1] == Signed(f[x]);
    SignedRoundTrip(f[x], FieldMin(x) < 0);
  }

  /**
   The receiver's verdict on any line the printer can build, exactly: the ranges decide, then the
   version, then the RPM sanity limit; an accepted line gives back every value printed.
  */
  lemma VerdictOnBuiltLine(f: Frame)
    requires Complete(f)
    ensures ReceiverVerdict(BuildTelLine(f)) ==
            if !InRange(f) then Failure(ParseFail)
            else if f[Ver] != VER then Failure(BadVersion)
            else if f[Rpm] > TEL_RPM_MAX then Failure(RangeFail)
            else Success(f)
  {
    hide FieldIndex, FieldAt, FieldMin, FieldMax, Tokens, Split, StripLineEnd, BuildTelLine, TokenOk, TokenInt;
    TokensOfBuiltLine(f);
    var parts := Tokens(f);
    TagOfTokens(f);
    CheckedFields();
    forall x: Field
      ensures TokenOk(x, parts[FieldIndex(x) + 1]) <==> FieldMin(x) <= f[x] <= FieldMax(x)
      ensures TokenInt(parts[FieldIndex(x) + 1]) == f[x]
    {
      PrintedToken(f, x);
    }
    assert TokensOk(parts, FIELD_COUNT) <==> InRange(f);
    assert TokenInt(parts[1]) == f[Ver] && TokenInt(parts[3]) == f[Rpm];
    assert FrameOfTokens(parts, FIELD_COUNT) == f;
  }

  /** Rebuilding a line from what was accepted is accepted again with the same values. */
  lemma AcceptedFramesRebuild(line: string)
    requires ReceiverVerdict(line).Success?
    ensures Complete(ReceiverVerdict(line).value)
    ensures ReceiverVerdict(BuildTelLine(ReceiverVerdict(line).value)) == ReceiverVerdict(line)
  {
    var fields := Split(StripLineEnd(line));
    var f := ReceiverVerdict(line).value;
    forall x: Field ensures x in f && FieldMin(x) <= f[x] <= FieldMax(x) {
      assert TokenOk(x, fields[FieldIndex(x) + 1]);
    }
    assert FieldIndex(Ver) == 0 && FieldIndex(Rpm) == 2;
    VerdictOnBuiltLine(f);
  }

  // ------------------------------------------------------------------
  // The accepted lines
  // ------------------------------------------------------------------

  /** Any run of line ends at the end of a line is ignored, and nothing else is. */
  lemma {:induction false} StripsLineEnds(s: string, ends: string)
    requires s == "" || (s[|s| - 1] != '\r' && s[|s| - 1] != '\n')
    requires forall k :: 0 <= k < |ends| ==> ends[k] == '\r' || ends[k] == '\n'
    ensures StripLineEnd(s + ends) == s
  {
    if ends == "" {
      assert s + ends == s;
    } else {
      var n := |ends| - 1;
      var line := s + ends;
      assert line[|line| - 1] == ends[n] && line[..|line| - 1] == s + ends[..n];
      StripsLineEnds(s, ends[..n]);
    }
  }

  /** A decimal numeral of v; a sign of either kind only where it is allowed. */
  predicate Numeral(tok: string, v: int, signed: bool) {
    || (tok != "" && AllDigits(tok) && v == DigitsValue(tok))
    || (&& signed && |tok| > 1 && AllDigits(tok[1..])
        && ((tok[0] == '-' && -v == DigitsValue(tok[1..])) || (tok[0] == '+' && v == DigitsValue(tok[1..]))))
  }

  lemma NumeralIsToken(tok: string, v: int, signed: bool)
    ensures Numeral(tok, v, signed) <==> IsStrictToken(tok, signed) && TokenInt(tok) == v
  {
    if tok != "" && IsDigit(tok[0]) {
      assert !HasSign(tok);
    }
    if tok != "" && HasSign(tok) {
      assert !IsDigit(tok[0]) && !AllDigits(tok);
    }
  }

  /** A tag and 18 numerals, of the values of f in the order of the fields. */
  ghost predicate Denotes(parts: seq<string>, f: Frame) {
    && Complete(f) && |parts| == 19 && parts[0] == "TEL"
    && forall x: Field :: Numeral(parts[FieldIndex(x) + 1], f[x], x in {Torque, TempH, TempL, Current})
  }

  /** The values the receiver takes. */
  ghost predicate Acceptable(f: Frame)
    requires Complete(f)
  {
    && f[Ver] == 2 && 0 <= f[Seq] <= 4294967295 && 0 <= f[Rpm] <= 20000
    && -32768 <= f[Torque] <= 32767 && 0 <= f[MotorErr] <= 255
    && 0 <= f[MotorValid] <= 1 && 0 <= f[MotorTimeout] <= 1
    && 0 <= f[CellVMax] <= 65535 && 0 <= f[CellVMin] <= 65535
    && -128 <= f[TempH] <= 127 && -128 <= f[TempL] <= 127
    && 1 <= f[SysState] <= 4 && 0 <= f[PackV] <= 65535
    && -2147483647 <= f[Current] <= 2147483647 && 0 <= f[Soc] <= 10000
    && 0 <= f[BmsValid] <= 1 && 0 <= f[TsMs] <= 4294967295 && 0 <= f[SpdX10] <= 3000
  }

  lemma AcceptableIffInRange(f: Frame)
    requires Complete(f)
    ensures Acceptable(f) <==> InRange(f) && f[Ver] == 2 && f[Rpm] <= 20000
  {
    if InRange(f) {
      assert forall x: Field :: FieldMin(x) <= f[x] <= FieldMax(x);
    }
  }

  lemma SignedFields(x: Field)
    ensures x in {Torque, TempH, TempL, Current} <==> FieldMin(x) < 0
  {
  }

  /** The accepted lines are, up to line ends, the tag and 18 numerals of acceptable values, which are returned. */
  lemma AcceptedIffDenotes(line: string, f: Frame)
    ensures ReceiverVerdict(line) == Success(f) <==>
            Complete(f) && Denotes(Split(StripLineEnd(line)), f) && Acceptable(f)
  {
    hide Split, StripLineEnd, Numeral, IsStrictToken, TokenInt, FieldMin, FieldMax, Acceptable, FieldAt;
    var parts := Split(StripLineEnd(line));
    CheckedFields();
    if Complete(f) {
      AcceptableIffInRange(f);
    }
    if |parts| == 19 {
      forall x: Field
        ensures FieldIndex(x) < FIELD_COUNT
        ensures x in {Torque, TempH, TempL, Current} <==> FieldMin(x) < 0
        ensures Complete(f) ==>
                  (Numeral(parts[FieldIndex(x) + 1], f[x], FieldMin(x) < 0) <==>
                   && IsStrictToken(parts[FieldIndex(x) + 1], FieldMin(x) < 0)
                   && TokenInt(parts[FieldIndex(x) + 1]) == f[x])
      {
        SignedFields(x);
        if Complete(f) {
          NumeralIsToken(parts[FieldIndex(x) + 1], f[x], FieldMin(x) < 0);
        }
      }
      var g := FrameOfTokens(parts, FIELD_COUNT);
      assert Complete(g);
      if Complete(f) && Denotes(parts, f) {
        assert forall x: Field :: g[x] == f[x];
        assert g == f;
      }
    }
  }

  /** A wrong tag is told from a wrong number of tokens. */
  lemma BadTagIff(line: string)
    ensures var parts := Split(StripLineEnd(line));
            ReceiverVerdict(line) == Failure(BadTag) <==> |parts| == 19 && parts[0] != "TEL"
  {
  }
}
