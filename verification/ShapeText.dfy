/** Shapes as text: `BxMxNxK`, printed with decimal numbers and read back by splitting at 'x'. */
module ShapeText {
  import opened Jobs

  datatype Shape = Shape(batch: int32, m: int32, n: int32, k: int32)

  /** `NoConversion` and `OutOfRange` are the number parser's exceptions, `NotFourParts` the shape parser's. */
  datatype Problem = NoConversion | OutOfRange | NotFourParts

  datatype Result<T> = Ok(value: T) | Err(problem: Problem)

  // ----- numbers

  function DigitChar(d: nat): char
    requires d < 10
  {
    ('0' as int + d) as char
  }

  predicate IsDigit(c: char) { '0' <= c <= '9' }

  predicate IsSpace(c: char) {
    c == ' ' || (9 as char <= c <= 13 as char)
  }

  function Decimal(n: nat): (s: string)
    ensures s != "" && forall i :: 0 <= i < |s| ==> IsDigit(s[i])
  {
    if n < 10 then [DigitChar(n)] else Decimal(n / 10) + [DigitChar(n % 10)]
  }

  function Magnitude(i: int): nat {
    if i < 0 then -i else i
  }

  function ToString(i: int32): string {
    if i < 0 then "-" + Decimal(Magnitude(i)) else Decimal(Magnitude(i))
  }

  function ValueOf(s: string): nat
    requires forall i :: 0 <= i < |s| ==> IsDigit(s[i])
  {
    if s == "" then 0 else
      var last := s[|s| - 1];
      assert IsDigit(last);
      10 * ValueOf(s[..|s| - 1]) + (last as int - '0' as int)
  }

  /** How many digits the text starts with. */
  function DigitRun(s: string): (n: nat)
    ensures n <= |s| && (forall i :: 0 <= i < n ==> IsDigit(s[i])) && (n < |s| ==> !IsDigit(s[n]))
  {
    if s == "" || !IsDigit(s[0]) then 0 else 1 + DigitRun(s[1..])
  }

  function SkipSpaces(s: string): string {
    if s != "" && IsSpace(s[0]) then SkipSpaces(s[1..]) else s
  }

  function Fit(v: int): Result<int32> {
    if -0x8000_0000 <= v < 0x8000_0000 then Ok(v) else Err(OutOfRange)
  }

  /** As many digits as there are, with the sign already read. */
  function Convert(negative: bool, digits: string): Result<int32> {
    var n := DigitRun(digits);
    if n == 0 then Err(NoConversion)
    else
      var magnitude: int := ValueOf(digits[..n]);
      Fit(if negative then -magnitude else magnitude)
  }

  /** The library's number parser: spaces, an optional sign, then as many digits as there are.
      Whatever follows the digits is ignored. */
  function Stoi(text: string): Result<int32> {
    var s := SkipSpaces(text);
    if s == "" then Err(NoConversion)
    else Convert(s[0] == '-', if s[0] == '-' || s[0] == '+' then s[1..] else s)
  }

  lemma {:induction false} DecimalRoundTrip(n: nat)
    ensures ValueOf(Decimal(n)) == n
  {
    if n >= 10 {
      DecimalRoundTrip(n / 10);
      var s := Decimal(n);
      assert s[..|s| - 1] == Decimal(n / 10);
    } else {
      assert Decimal(n)[..0] == "";
    }
  }

  lemma {:induction false} AllDigits(s: string)
    requires forall i :: 0 <= i < |s| ==> IsDigit(s[i])
    ensures DigitRun(s) == |s|
  {
    if s != "" {
      AllDigits(s[1..]);
    }
  }

  /** Every `int` survives printing and parsing. */
  lemma NumberRoundTrip(i: int32)
    ensures Stoi(ToString(i)) == Ok(i)
  {
    var n := Magnitude(i);
    DecimalRoundTrip(n);
    AllDigits(Decimal(n));
    var text := ToString(i);
    assert Decimal(n)[..|Decimal(n)|] == Decimal(n);
    hide DigitRun;
    hide ValueOf;
    if i < 0 {
      assert text[0] == '-' && text[1..] == Decimal(n);
      assert SkipSpaces(text) == text;
    } else {
      assert IsDigit(text[0]);
      assert SkipSpaces(text) == text;
    }
    hide Decimal;
  }

  // ----- which texts start with a number

  /** The number a sign and digits denote. */
  function Signed(sign: string, digits: string): int
    requires forall i :: 0 <= i < |digits| ==> IsDigit(digits[i])
  {
    var magnitude: int := ValueOf(digits);
    if sign == "-" then -magnitude else magnitude
  }

  /** Blanks and the control characters from tab to carriage return, at most one sign, then at least one
      digit, then no further digit. */
  predicate IsNumeral(text: string, spaces: string, sign: string, digits: string, rest: string) {
    && text == spaces + sign + digits + rest
    && (forall i :: 0 <= i < |spaces| ==> spaces[i] == ' ' || 9 <= spaces[i] as int <= 13)
    && (sign == "" || sign == "+" || sign == "-")
    && digits != "" && (forall i :: 0 <= i < |digits| ==> '0' <= digits[i] <= '9')
    && (rest != "" ==> !IsDigit(rest[0]))
  }

  /** The text starts with a decimal number in the range of `int`. */
  ghost predicate StartsWithInt(text: string) {
    exists spaces, sign, digits, rest ::
      IsNumeral(text, spaces, sign, digits, rest) && -0x8000_0000 <= Signed(sign, digits) < 0x8000_0000
  }

  lemma {:induction false} SpacesSkipped(spaces: string, s: string)
    requires forall i :: 0 <= i < |spaces| ==> IsSpace(spaces[i])
    requires s != "" ==> !IsSpace(s[0])
    ensures SkipSpaces(spaces + s) == s
  {
    if spaces == "" {
      assert spaces + s == s;
    } else {
      assert (spaces + s)[1..] == spaces[1..] + s;
      SpacesSkipped(spaces[1..], s);
    }
  }

  lemma {:induction false} RunOfDigits(digits: string, rest: string)
    requires forall i :: 0 <= i < |digits| ==> IsDigit(digits[i])
    requires rest != "" ==> !IsDigit(rest[0])
    ensures DigitRun(digits + rest) == |digits|
  {
    if digits == "" {
      assert digits + rest == rest;
    } else {
      assert (digits + rest)[1..] == digits[1..] + rest;
      RunOfDigits(digits[1..], rest);
    }
  }

  lemma DigitsAreConverted(negative: bool, digits: string, rest: string)
    requires digits != "" && forall i :: 0 <= i < |digits| ==> IsDigit(digits[i])
    requires rest != "" ==> !IsDigit(rest[0])
    ensures Convert(negative, digits + rest) == Fit(Signed(if negative then "-" else "", digits))
  {
    RunOfDigits(digits, rest);
    hide DigitRun;
    hide ValueOf;
    hide Fit;
    assert (digits + rest)[..|digits|] == digits;
  }

  /** Whatever follows, the parser reads the numeral. */
  lemma NumeralIsRead(text: string, spaces: string, sign: string, digits: string, rest: string)
    requires IsNumeral(text, spaces, sign, digits, rest)
    ensures Stoi(text) == Fit(Signed(sign, digits))
  {
    hide SkipSpaces;
    hide Convert;
    hide ValueOf;
    hide Fit;
    var s := sign + (digits + rest);
    assert text == spaces + s;
    assert IsDigit(digits[0]) && s[0] == (if sign == "" then digits[0] else sign[0]);
    SpacesSkipped(spaces, s);
    DigitsAreConverted(sign == "-", digits, rest);
    if sign == "" {
      assert s == digits + rest;
    } else {
      assert s[1..] == digits + rest;
    }
  }

  lemma {:induction false} SpacesFound(text: string) returns (spaces: string)
    ensures text == spaces + SkipSpaces(text) && (forall i :: 0 <= i < |spaces| ==> IsSpace(spaces[i]))
  {
    if text != "" && IsSpace(text[0]) {
      var more := SpacesFound(text[1..]);
      spaces := [text[0]] + more;
    } else {
      spaces := "";
    }
  }

  lemma DigitsFound(negative: bool, tail: string) returns (digits: string, rest: string)
    requires Convert(negative, tail) != Err(NoConversion)
    ensures tail == digits + rest && digits != "" && (forall i :: 0 <= i < |digits| ==> IsDigit(digits[i]))
    ensures rest != "" ==> !IsDigit(rest[0])
  {
    hide DigitRun;
    hide ValueOf;
    hide Fit;
    digits, rest := tail[..DigitRun(tail)], tail[DigitRun(tail)..];
    hide IsDigit;
  }

  /** If the parser converts anything, it is a numeral of the text. */
  lemma NumeralIsFound(text: string) returns (spaces: string, sign: string, digits: string, rest: string)
    requires Stoi(text) != Err(NoConversion)
    ensures IsNumeral(text, spaces, sign, digits, rest)
  {
    hide Convert;
    spaces := SpacesFound(text);
    var s := SkipSpaces(text);
    hide SkipSpaces;
    if s[0] == '-' || s[0] == '+' {
      digits, rest := DigitsFound(s[0] == '-', s[1..]);
      sign := [s[0]];
      assert s == sign + s[1..];
    } else {
      digits, rest := DigitsFound(false, s);
      sign := "";
    }
    assert s == sign + (digits + rest);
    hide Stoi;
  }

  /** The number parser accepts exactly the texts that start with a number in range. */
  lemma StoiAcceptsIff(text: string)
    ensures Stoi(text).Ok? <==> StartsWithInt(text)
  {
    if Stoi(text).Ok? {
      var spaces, sign, digits, rest := NumeralIsFound(text);
      NumeralIsRead(text, spaces, sign, digits, rest);
      hide Stoi;
      hide IsNumeral;
    } else if StartsWithInt(text) {
      var spaces, sign, digits, rest :|
        IsNumeral(text, spaces, sign, digits, rest) && -0x8000_0000 <= Signed(sign, digits) < 0x8000_0000;
      NumeralIsRead(text, spaces, sign, digits, rest);
    }
  }

  /** The text starts with a decimal number of value `v`. */
  ghost predicate Denotes(text: string, v: int) {
    exists spaces, sign, digits, rest :: IsNumeral(text, spaces, sign, digits, rest) && Signed(sign, digits) == v
  }

  /** The parser returns the number the text starts with, or says that it does not fit an `int`, or that
      there is none. */
  lemma StoiIs(text: string)
    ensures forall v :: Denotes(text, v) ==>
              Stoi(text) == if -0x8000_0000 <= v < 0x8000_0000 then Ok(v) else Err(OutOfRange)
    ensures (forall v :: !Denotes(text, v)) ==> Stoi(text) == Err(NoConversion)
    ensures Stoi(text).Ok? ==> Denotes(text, Stoi(text).value)
  {
    forall v | Denotes(text, v) ensures Stoi(text) == Fit(v) {
      var spaces, sign, digits, rest :| IsNumeral(text, spaces, sign, digits, rest) && Signed(sign, digits) == v;
      NumeralIsRead(text, spaces, sign, digits, rest);
    }
    hide Stoi;
    if Stoi(text) != Err(NoConversion) {
      var spaces, sign, digits, rest := NumeralIsFound(text);
      assert Denotes(text, Signed(sign, digits));
    }
    hide IsNumeral;
    hide Signed;
  }

  // ----- splitting

  /** Where the first 'x' at or after `pos` is; the length of the text if there is none. */
  function Find(text: string, pos: nat): (at: nat)
    requires pos <= |text|
    ensures pos <= at <= |text| && (forall i :: pos <= i < at ==> text[i] != 'x') && (at < |text| ==> text[at] == 'x')
    decreases |text| - pos
  {
    if pos == |text| || text[pos] == 'x' then pos else Find(text, pos + 1)
  }

  /** The parts between the separators. A trailing separator starts no further part. */
  function Parts(text: string): seq<string>
    decreases |text|
  {
    if text == "" then [] else
      var at := Find(text, 0);
      if at == |text| then [text] else [text[..at]] + Parts(text[at + 1..])
  }

  /** All parts as numbers; the first bad part decides the error. */
  function Numbers(parts: seq<string>): Result<seq<int32>> {
    if parts == [] then Ok([]) else
      match Stoi(parts[0])
      case Err(p) => Err(p)
      case Ok(v) =>
        match Numbers(parts[1..])
        case Err(p) => Err(p)
        case Ok(rest) => Ok([v] + rest)
  }

  function Assemble(r: Result<seq<int32>>): Result<Shape> {
    match r
    case Err(p) => Err(p)
    case Ok(v) => if |v| == 4 then Ok(Shape(v[0], v[1], v[2], v[3])) else Err(NotFourParts)
  }

  function After(v: seq<int32>, r: Result<seq<int32>>): Result<seq<int32>> {
    match r
    case Err(p) => Err(p)
    case Ok(rest) => Ok(v + rest)
  }

  lemma FindFromHere(text: string, pos: nat)
    requires pos <= |text|
    ensures pos + Find(text[pos..], 0) == Find(text, pos)
  {
    var s, a, b := text[pos..], Find(text[pos..], 0), Find(text, pos);
    assert forall i :: 0 <= i < |s| ==> s[i] == text[pos + i];
  }

  lemma FirstOfParts(text: string, at: nat)
    requires text != "" && at == Find(text, 0)
    ensures at == |text| ==> Parts(text) == [text]
    ensures at < |text| ==> Parts(text) == [text[..at]] + Parts(text[at + 1..])
  {
    hide Find;
    if at < |text| {
      var tail := Parts(text[at + 1..]);
    }
  }

  lemma PartsStep(text: string, pos: nat)
    requires pos < |text|
    ensures var next := Find(text, pos);
            Parts(text[pos..]) == [text[pos..next]] + (if next == |text| then [] else Parts(text[next + 1..]))
  {
    FindFromHere(text, pos);
    hide Find;
    var s, next := text[pos..], Find(text, pos);
    FirstOfParts(s, next - pos);
    hide Parts;
    if next < |text| {
      assert s[..next - pos] == text[pos..next];
      assert s[next - pos + 1..] == text[next + 1..];
    } else {
      assert text[pos..next] == s && [s] + [] == [s];
    }
  }

  lemma NumbersCons(p: string, rest: seq<string>)
    ensures Stoi(p).Err? ==> Numbers([p] + rest) == Err(Stoi(p).problem)
    ensures Stoi(p).Ok? ==> Numbers([p] + rest) == After([Stoi(p).value], Numbers(rest))
  {
    assert ([p] + rest)[1..] == rest;
    hide Stoi;
  }

  lemma AfterAfter(v: seq<int32>, w: seq<int32>, r: Result<seq<int32>>)
    ensures After(v, After(w, r)) == After(v + w, r)
    ensures After([], r) == r
  {
    if r.Ok? {
      assert v + (w + r.value) == v + w + r.value;
      assert [] + r.value == r.value;
    }
  }

  // ----- what is a shape's text

  /** The text is four parts without separators, with separators between them and at most one more at the
      end, that start with the shape's batch, m, n and k in this order. */
  ghost predicate IsShapeText(text: string, s: Shape) {
    exists b, m, n, k, tail ::
      && text == b + "x" + m + "x" + n + "x" + k + tail && (tail == "" || tail == "x")
      && 'x' !in b && 'x' !in m && 'x' !in n && 'x' !in k
      && Denotes(b, s.batch) && Denotes(m, s.m) && Denotes(n, s.n) && Denotes(k, s.k)
  }

  lemma LastPart(p: string)
    requires p != "" && 'x' !in p
    ensures Parts(p) == [p]
  {
    var at := Find(p, 0);
    assert forall i :: 0 <= i < |p| ==> p[i] in p;
    assert p[..|p|] == p;
  }

  lemma FirstPart(p: string, rest: string)
    requires 'x' !in p
    ensures Parts(p + "x" + rest) == [p] + Parts(rest)
  {
    hide Find;
    var text := p + "x" + rest;
    var at := Find(text, 0);
    FirstOfParts(text, at);
    hide Parts;
    assert text[|p|] == 'x';
    assert forall i :: 0 <= i < |p| ==> p[i] in p && text[i] == p[i];
    assert text[..|p|] == p && text[|p| + 1..] == rest;
  }

  lemma LabelParts(b: string, m: string, n: string, k: string)
    requires 'x' !in b && 'x' !in m && 'x' !in n && 'x' !in k && k != ""
    ensures Parts(b + "x" + m + "x" + n + "x" + k) == [b, m, n, k]
    ensures Parts(b + "x" + m + "x" + n + "x" + k + "x") == [b, m, n, k]
  {
    LastPart(k);
    FirstPart(k, "");
    assert k + "x" + "" == k + "x";
    assert Parts(k + "x") == [k] by {
      assert Parts("") == [];
    }
    hide Parts;
    FirstThree(b, m, n, k);
    FirstThree(b, m, n, k + "x");
    assert b + "x" + m + "x" + n + "x" + (k + "x") == b + "x" + m + "x" + n + "x" + k + "x";
  }

  lemma FirstThree(b: string, m: string, n: string, rest: string)
    requires 'x' !in b && 'x' !in m && 'x' !in n
    ensures Parts(b + "x" + m + "x" + n + "x" + rest) == [b, m, n] + Parts(rest)
  {
    hide Parts;
    FirstPart(n, rest);
    FirstPart(m, n + "x" + rest);
    FirstPart(b, m + "x" + (n + "x" + rest));
    assert b + "x" + m + "x" + n + "x" + rest == b + "x" + (m + "x" + (n + "x" + rest));
  }

  lemma FourRead(b: string, m: string, n: string, k: string, s: Shape)
    requires Stoi(b) == Ok(s.batch) && Stoi(m) == Ok(s.m) && Stoi(n) == Ok(s.n) && Stoi(k) == Ok(s.k)
    ensures Numbers([b, m, n, k]) == Ok([s.batch, s.m, s.n, s.k])
  {
    hide Stoi;
    NumbersCons(k, []);
    NumbersCons(n, [k]);
    NumbersCons(m, [n, k]);
    NumbersCons(b, [m, n, k]);
    assert [k] == [k] + [] && [n, k] == [n] + [k] && [m, n, k] == [m] + [n, k] && [b, m, n, k] == [b] + [m, n, k];
    assert Numbers([]) == Ok([]);
    hide Numbers;
    assert [s.k] + [] == [s.k] && [s.n] + [s.k] == [s.n, s.k] && [s.m] + [s.n, s.k] == [s.m, s.n, s.k];
    assert [s.batch] + [s.m, s.n, s.k] == [s.batch, s.m, s.n, s.k];
    assert Numbers([k]) == Ok([s.k]);
    assert Numbers([n, k]) == Ok([s.n, s.k]);
    assert Numbers([m, n, k]) == Ok([s.m, s.n, s.k]);
  }

  lemma ShapeIsParsed(text: string, s: Shape)
    requires IsShapeText(text, s)
    ensures Assemble(Numbers(Parts(text))) == Ok(s)
  {
    var b, m, n, k, tail :|
      && text == b + "x" + m + "x" + n + "x" + k + tail && (tail == "" || tail == "x")
      && 'x' !in b && 'x' !in m && 'x' !in n && 'x' !in k
      && Denotes(b, s.batch) && Denotes(m, s.m) && Denotes(n, s.n) && Denotes(k, s.k);
    StoiIs(b);
    StoiIs(m);
    StoiIs(n);
    StoiIs(k);
    hide Denotes;
    assert k != "";
    TailParts(b, m, n, k, tail);
    FourParsed(text, b, m, n, k, s);
    hide *;
  }

  lemma FourParsed(text: string, b: string, m: string, n: string, k: string, s: Shape)
    requires Parts(text) == [b, m, n, k]
    requires Stoi(b) == Ok(s.batch) && Stoi(m) == Ok(s.m) && Stoi(n) == Ok(s.n) && Stoi(k) == Ok(s.k)
    ensures Assemble(Numbers(Parts(text))) == Ok(s)
  {
    FourRead(b, m, n, k, s);
    hide Stoi;
    hide Parts;
    hide Numbers;
  }

  lemma TailParts(b: string, m: string, n: string, k: string, tail: string)
    requires 'x' !in b && 'x' !in m && 'x' !in n && 'x' !in k && k != "" && (tail == "" || tail == "x")
    ensures Parts(b + "x" + m + "x" + n + "x" + k + tail) == [b, m, n, k]
  {
    LabelParts(b, m, n, k);
    hide Parts;
    var whole := b + "x" + m + "x" + n + "x" + k;
    assert whole + "" == whole;
  }

  /** The parts with separators between them. */
  function Joined(parts: seq<string>): string {
    if parts == [] then "" else if |parts| == 1 then parts[0] else parts[0] + "x" + Joined(parts[1..])
  }

  lemma JoinedFirst(first: string, rest: seq<string>, more: string, tail: string)
    requires more == Joined(rest) + tail && (rest == [] ==> more == "")
    ensures first + "x" + more == Joined([first] + rest) + if rest == [] then "x" else tail
  {
    assert ([first] + rest)[1..] == rest;
    if rest != [] {
      assert first + "x" + (Joined(rest) + tail) == first + "x" + Joined(rest) + tail;
    }
  }

  lemma {:induction false} PartsJoin(text: string) returns (tail: string)
    ensures text == Joined(Parts(text)) + tail && (tail == "" || tail == "x")
    ensures Parts(text) == [] ==> text == ""
    ensures forall p :: p in Parts(text) ==> 'x' !in p
    decreases |text|
  {
    tail := "";
    if text != "" {
      var at := Find(text, 0);
      FirstOfParts(text, at);
      assert 'x' !in text[..at];
      if at == |text| {
        assert text[..at] == text;
        hide Parts;
      } else {
        var more := text[at + 1..];
        assert text == text[..at] + "x" + more;
        hide Find;
        tail := PartsJoin(more);
        hide Parts;
        JoinedFirst(text[..at], Parts(more), more, tail);
        hide Joined;
        tail := if Parts(more) == [] then "x" else tail;
      }
    }
  }

  lemma {:induction false} NumbersAt(parts: seq<string>, i: nat)
    requires Numbers(parts).Ok? && i < |parts|
    ensures |Numbers(parts).value| == |parts| && Stoi(parts[i]) == Ok(Numbers(parts).value[i])
  {
    hide Stoi;
    assert parts == [parts[0]] + parts[1..];
    NumbersCons(parts[0], parts[1..]);
    if i > 0 {
      NumbersAt(parts[1..], i - 1);
    } else if |parts| > 1 {
      NumbersAt(parts[1..], 0);
    }
  }

  lemma ParsedIsShape(text: string)
    ensures var r := Assemble(Numbers(Parts(text))); r.Ok? ==> IsShapeText(text, r.value)
  {
    var ps := Parts(text);
    if Assemble(Numbers(ps)).Ok? {
      var tail := PartsJoin(text);
      if ps != [] {
        NumbersAt(ps, 0);
      }
      forall i | 0 <= i < 4 ensures Denotes(ps[i], Numbers(ps).value[i]) {
        NumbersAt(ps, i);
        StoiIs(ps[i]);
      }
      hide Denotes;
      hide Parts;
      FourJoined(ps[0], ps[1], ps[2], ps[3]);
      assert ps == [ps[0], ps[1], ps[2], ps[3]];
    }
    hide Numbers;
  }

  /** A text is read as the shape whose text it is, and as none if it is no shape's. */
  lemma ParsedIff(text: string, s: Shape)
    ensures Assemble(Numbers(Parts(text))) == Ok(s) <==> IsShapeText(text, s)
  {
    ParsedIsShape(text);
    if IsShapeText(text, s) {
      ShapeIsParsed(text, s);
    }
    hide *;
  }

  lemma FourJoined(b: string, m: string, n: string, k: string)
    ensures Joined([b, m, n, k]) == b + "x" + m + "x" + n + "x" + k
  {
    assert [b, m, n, k][1..] == [m, n, k] && [m, n, k][1..] == [n, k] && [n, k][1..] == [k];
    assert Joined([n, k]) == n + "x" + k;
    assert Joined([m, n, k]) == m + "x" + (n + "x" + k);
    assert b + "x" + (m + "x" + (n + "x" + k)) == b + "x" + m + "x" + n + "x" + k;
  }

  method ParseShape(text: string) returns (r: Result<Shape>)
    ensures r == Assemble(Numbers(Parts(text)))
    ensures forall s :: r == Ok(s) <==> IsShapeText(text, s)
  {
    forall s ensures Assemble(Numbers(Parts(text))) == Ok(s) <==> IsShapeText(text, s) {
      ParsedIff(text, s);
    }
    hide IsShapeText;
    hide Find;
    hide Parts;
    var v: seq<int32> := [];
    var pos := 0;
    assert text[0..] == text;
    AfterAfter([], [], Numbers(Parts(text)));
    hide Stoi;
    hide Numbers;
    hide After;
    while pos < |text|
      invariant 0 <= pos <= |text|
      invariant Numbers(Parts(text)) == After(v, Numbers(Parts(text[pos..])))
      decreases |text| - pos
    {
      var next := Find(text, pos);
      PartsStep(text, pos);
      ghost var rest := if next == |text| then [] else Parts(text[next + 1..]);
      NumbersCons(text[pos..next], rest);
      match Stoi(text[pos..next]) {
        case Err(p) =>
          AfterError(v, p);
          return Err(p);
        case Ok(value) =>
          AfterAfter(v, [value], Numbers(rest));
          v := v + [value];
      }
      pos := if next == |text| then |text| else next + 1;
      if next == |text| {
        NoParts(text, pos);
        break;
      }
    }
    NoParts(text, pos);
    AfterNone(v);
    if |v| != 4 {
      return Err(NotFourParts);
    }
    r := Ok(Shape(v[0], v[1], v[2], v[3]));
  }

  lemma NoParts(text: string, pos: nat)
    requires pos == |text|
    ensures Parts(text[pos..]) == []
  {
    assert text[pos..] == "";
  }

  lemma AfterError(v: seq<int32>, p: Problem)
    ensures After(v, Err(p)) == Err(p)
  {
  }

  lemma AfterNone(v: seq<int32>)
    ensures After(v, Numbers([])) == Ok(v)
  {
    assert v + [] == v;
  }

  function ShapeLabel(s: Shape): string {
    ToString(s.batch) + "x" + ToString(s.m) + "x" + ToString(s.n) + "x" + ToString(s.k)
  }

  lemma NoSeparator(i: int32)
    ensures ToString(i) != "" && 'x' !in ToString(i)
  {
    var d := Decimal(Magnitude(i));
    assert forall j :: 0 <= j < |d| ==> IsDigit(d[j]);
    hide Decimal;
  }

  lemma FourNumbers(s: Shape)
    ensures Numbers([ToString(s.batch), ToString(s.m), ToString(s.n), ToString(s.k)]) == Ok([s.batch, s.m, s.n, s.k])
  {
    NumberRoundTrip(s.batch);
    NumberRoundTrip(s.m);
    NumberRoundTrip(s.n);
    NumberRoundTrip(s.k);
    hide Stoi;
    hide ToString;
    FourRead(ToString(s.batch), ToString(s.m), ToString(s.n), ToString(s.k), s);
  }

  /** Every shape survives printing and parsing; so does its label with one more separator. */
  lemma ShapeRoundTrip(s: Shape)
    ensures Assemble(Numbers(Parts(ShapeLabel(s)))) == Ok(s)
    ensures Assemble(Numbers(Parts(ShapeLabel(s) + "x"))) == Ok(s)
  {
    var b, m, n, k := ToString(s.batch), ToString(s.m), ToString(s.n), ToString(s.k);
    NoSeparator(s.batch);
    NoSeparator(s.m);
    NoSeparator(s.n);
    NoSeparator(s.k);
    FourNumbers(s);
    LabelParts(b, m, n, k);
    hide ToString;
    hide Numbers;
    hide Parts;
  }

  // ----- what is accepted

  function Separators(text: string): nat {
    if text == "" then 0 else (if text[0] == 'x' then 1 else 0) + Separators(text[1..])
  }

  /** A text has one part more than separators, unless it is empty or ends with one. */
  lemma {:induction false} PartCount(text: string)
    ensures |Parts(text)| == Separators(text) + (if text == "" || text[|text| - 1] == 'x' then 0 else 1)
    decreases |text|
  {
    if text != "" {
      var at := Find(text, 0);
      FirstOfParts(text, at);
      SeparatorsUpTo(text, at);
      hide Find;
      hide Parts;
      if at < |text| {
        PartCount(text[at + 1..]);
        SeparatorFirst(text[at..]);
        hide Separators;
        assert text[at..][1..] == text[at + 1..];
      } else {
        assert text[at..] == "" && Separators("") == 0;
        hide Separators;
      }
    }
  }

  lemma SeparatorFirst(text: string)
    requires text != "" && text[0] == 'x'
    ensures Separators(text) == 1 + Separators(text[1..])
  {
  }

  lemma {:induction false} SeparatorsUpTo(text: string, at: nat)
    requires at <= |text| && forall i :: 0 <= i < at ==> text[i] != 'x'
    ensures Separators(text) == Separators(text[at..])
  {
    if at == 0 {
      assert text[0..] == text;
    } else {
      SeparatorsUpTo(text[1..], at - 1);
      assert text[1..][at - 1..] == text[at..];
    }
  }

  lemma {:induction false} NumbersPointwise(parts: seq<string>)
    ensures Numbers(parts).Ok? <==> forall i :: 0 <= i < |parts| ==> Stoi(parts[i]).Ok?
    ensures Numbers(parts).Ok? ==> |Numbers(parts).value| == |parts|
  {
    hide Stoi;
    if parts != [] {
      NumbersPointwise(parts[1..]);
      assert forall i :: 0 < i < |parts| ==> parts[i] == parts[1..][i - 1];
      assert forall i :: 0 <= i < |parts[1..]| ==> parts[1..][i] == parts[i + 1];
    }
  }

  /** The first part that is no number decides the error; if all are numbers it is their count. */
  lemma ErrorOf(text: string)
    ensures forall i :: 0 <= i < |Parts(text)| && Stoi(Parts(text)[i]).Err?
                        && (forall k :: 0 <= k < i ==> Stoi(Parts(text)[k]).Ok?) ==>
              Assemble(Numbers(Parts(text))) == Err(Stoi(Parts(text)[i]).problem)
    ensures (forall i :: 0 <= i < |Parts(text)| ==> Stoi(Parts(text)[i]).Ok?) && |Parts(text)| != 4 ==>
              Assemble(Numbers(Parts(text))) == Err(NotFourParts)
  {
    var ps := Parts(text);
    NumbersPointwise(ps);
    hide Parts;
    hide Stoi;
    forall i | 0 <= i < |ps| && Stoi(ps[i]).Err? && forall k :: 0 <= k < i ==> Stoi(ps[k]).Ok?
      ensures Numbers(ps) == Err(Stoi(ps[i]).problem)
    {
      FirstErrorDecides(ps, i);
    }
    hide Numbers;
  }

  lemma {:induction false} FirstErrorDecides(parts: seq<string>, i: nat)
    requires i < |parts| && Stoi(parts[i]).Err? && forall k :: 0 <= k < i ==> Stoi(parts[k]).Ok?
    ensures Numbers(parts) == Err(Stoi(parts[i]).problem)
  {
    hide Stoi;
    if i > 0 {
      assert forall k :: 0 <= k < i - 1 ==> parts[1..][k] == parts[k + 1];
      FirstErrorDecides(parts[1..], i - 1);
    }
  }

  /** A text is a shape if and only if it has three separators, or four with nothing after the last,
      and every part starts with a number that fits an `int`. */
  lemma AcceptedIff(text: string)
    ensures Assemble(Numbers(Parts(text))).Ok? <==>
              Separators(text) == (if text == "" || text[|text| - 1] == 'x' then 4 else 3)
              && forall i :: 0 <= i < |Parts(text)| ==> StartsWithInt(Parts(text)[i])
  {
    PartCount(text);
    NumbersPointwise(Parts(text));
    forall i | 0 <= i < |Parts(text)| ensures Stoi(Parts(text)[i]).Ok? <==> StartsWithInt(Parts(text)[i]) {
      StoiAcceptsIff(Parts(text)[i]);
    }
    hide StartsWithInt;
    hide Parts;
    hide Numbers;
    hide Stoi;
    hide Separators;
  }
}
