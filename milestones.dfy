/**
 * Parsing the `--milestones` option of the multi-step learning-rate schedule:
 * `[int(v.strip()) for v in milestones.split(",")]`.
 */
module Milestones {
  import opened Wrappers

  /** `str.split(sep)` for a one-character separator: every piece, empty ones included. */
  function Split(s: string, sep: char): (parts: seq<string>)
    ensures |parts| >= 1
    ensures forall i :: 0 <= i < |parts| ==> sep !in parts[i]
  {
    if s == [] then [""]
    else
      var rest := Split(s[1..], sep);
      if s[0] == sep then [""] + rest
      else [[s[0]] + rest[0]] + rest[1..]
  }

  /** `sep.join(parts)`. */
  function Join(parts: seq<string>, sep: char): string
    requires |parts| >= 1
  {
    if |parts| == 1 then parts[0] else parts[0] + [sep] + Join(parts[1..], sep)
  }

  /** Splitting what was joined gives back the pieces, when no piece holds the separator. */
  lemma {:induction false} SplitJoin(parts: seq<string>, sep: char)
    requires |parts| >= 1
    requires forall i :: 0 <= i < |parts| ==> sep !in parts[i]
    ensures Split(Join(parts, sep), sep) == parts
  {
    if |parts| == 1 {
      SplitWithout(parts[0], sep);
    } else {
      var tail := Join(parts[1..], sep);
      SplitJoin(parts[1..], sep);
      assert parts[0] + [sep] + tail == parts[0] + ([sep] + tail);
      SplitPrefix(parts[0], [sep] + tail, sep);
      assert ([sep] + tail)[1..] == tail;
      assert Split([sep] + tail, sep) == [""] + parts[1..];
      assert parts[0] + "" == parts[0];
      assert [parts[0]] + parts[1..] == parts;
    }
  }

  /** Joining what was split gives back the string. */
  lemma {:induction false} JoinSplit(s: string, sep: char)
    ensures Join(Split(s, sep), sep) == s
  {
    if s != [] {
      JoinSplit(s[1..], sep);
      var rest := Split(s[1..], sep);
      if s[0] != sep {
        var parts := Split(s, sep);
        assert parts[1..] == rest[1..];
        if |rest| > 1 {
          assert rest == [rest[0]] + rest[1..];
          assert Join(rest, sep) == rest[0] + [sep] + Join(rest[1..], sep);
        }
      }
    }
  }

  /** A string without the separator is a single piece. */
  lemma {:induction false} SplitWithout(p: string, sep: char)
    requires sep !in p
    ensures Split(p, sep) == [p]
  {
    if p != [] {
      SplitWithout(p[1..], sep);
      assert [p[0]] + p[1..] == p;
    }
  }

  /** A separator-free prefix joins the first piece of what follows it. */
  lemma {:induction false} SplitPrefix(p: string, t: string, sep: char)
    requires sep !in p
    ensures Split(p + t, sep) == [p + Split(t, sep)[0]] + Split(t, sep)[1..]
  {
    if p != [] {
      SplitPrefix(p[1..], t, sep);
      assert (p + t)[0] == p[0] && p[0] in p;
      assert (p + t)[1..] == p[1..] + t;
      var rest := Split(p[1..] + t, sep);
      assert rest[0] == p[1..] + Split(t, sep)[0];
      assert rest[1..] == Split(t, sep)[1..];
      assert Split(p + t, sep) == [[p[0]] + rest[0]] + rest[1..];
      assert [p[0]] + (p[1..] + Split(t, sep)[0]) == p + Split(t, sep)[0];
    } else {
      assert p + t == t;
      assert p + Split(t, sep)[0] == Split(t, sep)[0];
      assert [Split(t, sep)[0]] + Split(t, sep)[1..] == Split(t, sep);
    }
  }

  /** The characters `str.isspace()` accepts, which `str.strip()` removes. */
  predicate IsSpace(c: char)
  {
    || c == ' '
    || '\t' <= c <= '\r'
    || '\U{1C}' <= c <= '\U{1F}'
    || c == '\U{85}' || c == '\U{A0}' || c == '\U{1680}'
    || '\U{2000}' <= c <= '\U{200A}'
    || c == '\U{2028}' || c == '\U{2029}' || c == '\U{202F}' || c == '\U{205F}' || c == '\U{3000}'
  }

  /** `str.lstrip()`: the longest suffix that does not start with whitespace. */
  function TrimLeft(s: string): (t: string)
    ensures |t| <= |s| && t == s[|s| - |t|..]
    ensures forall k :: 0 <= k < |s| - |t| ==> IsSpace(s[k])
    ensures t == [] || !IsSpace(t[0])
  {
    if s != [] && IsSpace(s[0]) then TrimLeft(s[1..]) else s
  }

  /** `str.rstrip()`: the longest prefix that does not end with whitespace. */
  function TrimRight(s: string): (t: string)
    ensures |t| <= |s| && t == s[..|t|]
    ensures forall k :: |t| <= k < |s| ==> IsSpace(s[k])
    ensures t == [] || !IsSpace(t[|t| - 1])
  {
    if s != [] && IsSpace(s[|s| - 1]) then TrimRight(s[..|s| - 1]) else s
  }

  /** `str.strip()`. */
  function Strip(s: string): (t: string)
    ensures |t| <= |s|
    ensures t == [] || (!IsSpace(t[0]) && !IsSpace(t[|t| - 1]))
    ensures t == [] <==> forall k :: 0 <= k < |s| ==> IsSpace(s[k])
  {
    TrimRight(TrimLeft(s))
  }

  predicate IsDigit(c: char)
  {
    '0' <= c <= '9'
  }

  function DigitValue(c: char): nat
    requires IsDigit(c)
  {
    (c as int) - ('0' as int)
  }

  function DigitChar(d: nat): (c: char)
    requires d < 10
    ensures IsDigit(c) && DigitValue(c) == d
  {
    ('0' as int + d) as char
  }

  /**
   * What `int()` accepts after its sign: decimal digits, with single underscores
   * allowed between two digits.
   */
  predicate WellGrouped(s: string)
  {
    && |s| > 0
    && IsDigit(s[0])
    && IsDigit(s[|s| - 1])
    && (forall i :: 0 <= i < |s| ==> IsDigit(s[i]) || s[i] == '_')
    && (forall i :: 0 <= i < |s| - 1 ==> s[i] == '_' ==> s[i + 1] != '_')
  }

  /** The digits of `s`, underscores dropped. */
  function Digits(s: string): (d: string)
    ensures |d| <= |s|
  {
    if s == [] then []
    else if s[0] == '_' then Digits(s[1..])
    else [s[0]] + Digits(s[1..])
  }

  /** The value of a decimal digit string, most significant digit first. */
  function DigitsValue(s: string): nat
    requires forall i :: 0 <= i < |s| ==> IsDigit(s[i])
  {
    if s == [] then 0 else DigitsValue(s[..|s| - 1]) * 10 + DigitValue(s[|s| - 1])
  }

  lemma {:induction false} DigitsAreDigits(s: string)
    requires forall i :: 0 <= i < |s| ==> IsDigit(s[i]) || s[i] == '_'
    ensures forall i :: 0 <= i < |Digits(s)| ==> IsDigit(Digits(s)[i])
  {
    if s != [] {
      DigitsAreDigits(s[1..]);
    }
  }

  /** `int(s)` on an already stripped string: an optional sign, then grouped digits. */
  function ParseInt(s: string): (r: Option<int>)
    ensures r.Some? ==> |s| > 0 && forall i :: 0 <= i < |s| ==> !IsSpace(s[i])
    ensures r.Some? && r.value < 0 ==> s[0] == '-'
  {
    var signed := |s| > 0 && (s[0] == '+' || s[0] == '-');
    var body := if signed then s[1..] else s;
    if WellGrouped(body) then
      DigitsAreDigits(body);
      var magnitude: int := DigitsValue(Digits(body));
      Some(if signed && s[0] == '-' then -magnitude else magnitude)
    else None
  }

  /** Decimal notation of a natural number, without leading zeros. */
  function NatToString(n: nat): (s: string)
    ensures |s| > 0 && forall i :: 0 <= i < |s| ==> IsDigit(s[i])
  {
    if n < 10 then [DigitChar(n)] else NatToString(n / 10) + [DigitChar(n % 10)]
  }

  /** `str(n)`: decimal notation with a leading `-` for negative numbers. */
  function IntToString(n: int): string
  {
    if n < 0 then "-" + NatToString(-n) else NatToString(n)
  }

  lemma {:induction false} NatToStringValue(n: nat)
    ensures DigitsValue(NatToString(n)) == n
  {
    if n >= 10 {
      NatToStringValue(n / 10);
      var s := NatToString(n);
      assert s[..|s| - 1] == NatToString(n / 10);
    }
  }

  lemma {:induction false} DigitsOfDigitString(s: string)
    requires forall i :: 0 <= i < |s| ==> IsDigit(s[i])
    ensures Digits(s) == s
  {
    if s != [] {
      DigitsOfDigitString(s[1..]);
    }
  }

  /** The notation of a natural number is what `int()` reads back as that number. */
  lemma NatToStringParses(n: nat)
    ensures WellGrouped(NatToString(n))
    ensures Digits(NatToString(n)) == NatToString(n)
    ensures DigitsValue(Digits(NatToString(n))) == n
  {
    var digits := NatToString(n);
    NatToStringValue(n);
    DigitsOfDigitString(digits);
  }

  /** `int()` accepts exactly grouped digits, optionally after one sign. */
  lemma ParseIntAccepts(s: string)
    ensures ParseInt(s).Some? <==>
      WellGrouped(s) || (|s| > 0 && (s[0] == '+' || s[0] == '-') && WellGrouped(s[1..]))
  {
    if |s| > 0 && (s[0] == '+' || s[0] == '-') {
      assert !IsDigit(s[0]);
    }
  }

  /** `int(str(n)) == n`. */
  lemma ParseIntToString(n: int)
    ensures ParseInt(IntToString(n)) == Some(n)
  {
    if n < 0 {
      ParseNegative(-n);
    } else {
      ParseNatural(n);
    }
  }

  lemma ParseNatural(n: nat)
    ensures ParseInt(NatToString(n)) == Some(n)
  {
    var digits := NatToString(n);
    NatToStringParses(n);
    assert !(digits[0] == '+' || digits[0] == '-');
  }

  lemma ParseNegative(n: nat)
    requires n > 0
    ensures ParseInt("-" + NatToString(n)) == Some(-(n as int))
  {
    var digits := NatToString(n);
    NatToStringParses(n);
    var s := "-" + digits;
    assert s[0] == '-' && s[1..] == digits;
  }

  /** `str(n)` has no surrounding whitespace, so `strip()` keeps it. */
  lemma StripIntToString(n: int)
    ensures Strip(IntToString(n)) == IntToString(n)
  {
    var s := IntToString(n);
    assert !IsSpace(s[0]) && !IsSpace(s[|s| - 1]);
  }

  /** Why a milestone list is refused: `int()` raised `ValueError` on this stripped piece. */
  datatype ParseError = InvalidLiteral(piece: string)

  /**
   * The values of a list of parse results, or the position of the first one that
   * failed: the comprehension raises at the first piece `int()` refuses.
   */
  function Collect(results: seq<Option<int>>): (r: Result<seq<int>, nat>)
    ensures r.Success? ==> |r.value| == |results|
    ensures r.Failure? ==> r.error < |results|
  {
    if results == [] then Success([])
    else if results[0].None? then Failure(0)
    else
      match Collect(results[1..])
      case Failure(k) => Failure(k + 1)
      case Success(vs) => Success([results[0].value] + vs)
  }

  /** `int(v.strip())` for every piece `v`. */
  function PieceResults(pieces: seq<string>): (results: seq<Option<int>>)
    ensures |results| == |pieces|
  {
    seq(|pieces|, i requires 0 <= i < |pieces| => ParseInt(Strip(pieces[i])))
  }

  /** Result `i` is what `int()` makes of stripped piece `i`. */
  lemma PieceResultsMeaning(pieces: seq<string>)
    ensures forall i :: 0 <= i < |pieces| ==> PieceResults(pieces)[i] == ParseInt(Strip(pieces[i]))
  {
  }

  /** `[int(v.strip()) for v in milestones.split(",")]`. */
  function ParseMilestones(milestones: string): (r: Result<seq<int>, ParseError>)
    ensures r.Success? ==> |r.value| == |Split(milestones, ',')|
    ensures r.Failure? ==> ParseInt(r.error.piece).None?
  {
    var pieces := Split(milestones, ',');
    var results := PieceResults(pieces);
    CollectMeaning(results);
    match Collect(results)
    case Success(values) => Success(values)
    case Failure(k) => Failure(InvalidLiteral(Strip(pieces[k])))
  }

  /**
   * Collecting succeeds exactly when every result is a value, and then gives those
   * values in order; otherwise it names the first failed position.
   */
  lemma {:induction false} CollectMeaning(results: seq<Option<int>>)
    ensures Collect(results).Success? <==> forall i :: 0 <= i < |results| ==> results[i].Some?
    ensures Collect(results).Success? ==>
      forall i :: 0 <= i < |results| ==> Collect(results).value[i] == results[i].value
    ensures Collect(results).Failure? ==>
      results[Collect(results).error].None? &&
      forall i :: 0 <= i < Collect(results).error ==> results[i].Some?
  {
    if results != [] {
      CollectMeaning(results[1..]);
      assert forall i :: 1 <= i < |results| ==> results[i] == results[1..][i - 1];
    }
  }

  /** The milestones written as `str(m)` joined by commas. */
  function FormatMilestones(ms: seq<int>): string
    requires |ms| >= 1
  {
    Join(seq(|ms|, i requires 0 <= i < |ms| => IntToString(ms[i])), ',')
  }

  /** Parsing formatted milestones gives them back. */
  lemma ParseFormatMilestones(ms: seq<int>)
    requires |ms| >= 1
    ensures ParseMilestones(FormatMilestones(ms)) == Success(ms)
  {
    var pieces := seq(|ms|, i requires 0 <= i < |ms| => IntToString(ms[i]));
    PiecesParse(ms, pieces);
    SplitJoin(pieces, ',');
    var results := PieceResults(pieces);
    PieceResultsMeaning(pieces);
    assert forall i :: 0 <= i < |ms| ==> results[i] == Some(ms[i]);
    CollectMeaning(results);
    assert Collect(results).value == ms;
  }

  lemma PiecesParse(ms: seq<int>, pieces: seq<string>)
    requires |pieces| == |ms| && forall i :: 0 <= i < |ms| ==> pieces[i] == IntToString(ms[i])
    ensures forall i :: 0 <= i < |pieces| ==> ',' !in pieces[i] && ParseInt(Strip(pieces[i])) == Some(ms[i])
  {
    forall i | 0 <= i < |pieces|
      ensures ',' !in pieces[i] && ParseInt(Strip(pieces[i])) == Some(ms[i])
    {
      StripIntToString(ms[i]);
      ParseIntToString(ms[i]);
    }
  }

  /**
   * One milestone per comma-separated piece, each the integer its stripped piece
   * spells (see `PieceResults`); when some piece is refused, the error names the
   * first refused piece.
   */
  lemma ParseMilestonesMeaning(milestones: string)
    ensures var pieces := Split(milestones, ',');
      var results := PieceResults(pieces);
      var r := ParseMilestones(milestones);
      && (r.Success? <==> forall i :: 0 <= i < |results| ==> results[i].Some?)
      && (r.Success? ==> |r.value| == |pieces| && forall i :: 0 <= i < |results| ==> results[i] == Some(r.value[i]))
      && (r.Failure? ==>
            && Collect(results).Failure?
            && var k := Collect(results).error;
            && k < |pieces|
            && r.error == InvalidLiteral(Strip(pieces[k]))
            && results[k].None?
            && forall i :: 0 <= i < k ==> results[i].Some?)
  {
    CollectMeaning(PieceResults(Split(milestones, ',')));
  }

  /** An empty option is refused, as `int("")` raises. */
  lemma EmptyMilestonesRefused()
    ensures ParseMilestones("") == Failure(InvalidLiteral(""))
  {
    assert Split("", ',') == [""];
    assert Strip("") == "";
    assert ParseInt("").None?;
  }

  /** The default option `"80,100"` gives the milestones 80 and 100. */
  lemma DefaultMilestones()
    ensures ParseMilestones("80,100") == Success([80, 100])
  {
    assert NatToString(8) == "8" && NatToString(10) == "10";
    assert IntToString(80) == "80" && IntToString(100) == "100";
    var pieces := seq(2, i requires 0 <= i < 2 => IntToString([80, 100][i]));
    assert pieces == ["80", "100"];
    assert Join(pieces, ',') == "80,100";
    ParseFormatMilestones([80, 100]);
  }
}
