/**
 releaseversion/version.go: the release formats as a codec, the four-part Windows
 version and the updater's comparison key.
 */
module ReleaseVersion {
  import opened Options
  import opened Text

  datatype Stage = Stable | Beta | Rc

  datatype Version = Version(major: nat, minor: nat, patch: nat, stage: Stage, sequence: nat)

  const MAX_COMPONENT := 65535
  const MAX_SEQUENCE := 29999

  // What Parse accepts.
  predicate Valid(v: Version) {
    && v.major <= MAX_COMPONENT && v.minor <= MAX_COMPONENT && v.patch <= MAX_COMPONENT
    && (if v.stage.Stable? then v.sequence == 0 else 1 <= v.sequence <= MAX_SEQUENCE)
  }

  // ---- reading numerals ----

  predicate IsDigit(c: char) {
    '0' <= c <= '9'
  }

  predicate AllDigits(s: string) {
    forall i | 0 <= i < |s| :: IsDigit(s[i])
  }

  // The length of the longest prefix of digits.
  function DigitRun(s: string): (n: nat)
    ensures n <= |s| && AllDigits(s[..n])
    ensures n < |s| ==> !IsDigit(s[n])
  {
    if s == "" || !IsDigit(s[0]) then 0
    else
      var n := 1 + DigitRun(s[1..]);
      assert forall i | 1 <= i < n :: s[i] == s[1..][i - 1];
      n
  }

  // No sign, no leading zero.
  predicate IsNumeral(s: string) {
    s != "" && AllDigits(s) && (s[0] == '0' ==> |s| == 1)
  }

  function Value(s: string): nat
    requires AllDigits(s)
  {
    if s == "" then 0 else 10 * Value(s[..|s| - 1]) + (s[|s| - 1] as int - '0' as int)
  }

  lemma {:induction false} ValueOfDecimal(n: nat)
    ensures IsNumeral(Decimal(n)) && Value(Decimal(n)) == n
    ensures n > 0 ==> Decimal(n)[0] != '0'
  {
    var s := Decimal(n);
    if n < 10 {
      assert s == [Digit(n)] && s[..0] == "";
    } else {
      ValueOfDecimal(n / 10);
      assert s[..|s| - 1] == Decimal(n / 10) && s[|s| - 1] == Digit(n % 10);
    }
  }

  lemma DecimalAppends(n: nat, d: nat)
    requires n > 0 && d < 10
    ensures Decimal(10 * n + d) == Decimal(n) + [Digit(d)]
  {
    assert (10 * n + d) / 10 == n && (10 * n + d) % 10 == d;
  }

  lemma {:induction false} DecimalOfValue(s: string)
    requires IsNumeral(s)
    ensures Decimal(Value(s)) == s
    ensures s[0] != '0' ==> Value(s) > 0
    decreases |s|
  {
    var head, d := s[..|s| - 1], s[|s| - 1] as int - '0' as int;
    assert Digit(d) == s[|s| - 1] && s == head + [Digit(d)];
    if head == "" {
      assert Value(s) == d;
    } else {
      DecimalOfValue(head);
      DecimalAppends(Value(head), d);
    }
  }

  // A numeral in front of something that is no digit is read back whole.
  lemma DigitRunStops(digits: string, rest: string)
    requires AllDigits(digits) && (rest == "" || !IsDigit(rest[0]))
    ensures DigitRun(digits + rest) == |digits|
    ensures (digits + rest)[..|digits|] == digits && (digits + rest)[|digits|..] == rest
  {
  }

  // ---- Parse and String ----

  // A numeral and the text behind it.
  function ReadNumeral(s: string): Option<(nat, string)> {
    var n := DigitRun(s);
    if IsNumeral(s[..n]) then Some((Value(s[..n]), s[n..])) else None
  }

  function ReadDot(s: string): Option<string> {
    if s != "" && s[0] == '.' then Some(s[1..]) else None
  }

  function ReadDotNumeral(s: string): Option<(nat, string)> {
    var rest := ReadDot(s);
    if rest.None? then None else ReadNumeral(rest.value)
  }

  function StageText(stage: Stage): string {
    match stage
    case Stable => ""
    case Beta => "-beta"
    case Rc => "-rc"
  }

  // "-beta.N", "-rc.N" or nothing, to the end.
  function ReadStage(s: string): Option<(Stage, nat)> {
    if s == "" then Some((Stable, 0))
    else
      var stage := if StageText(Beta) <= s then Beta else Rc;
      if !(StageText(stage) <= s) then None
      else
        var sequence := ReadDotNumeral(s[|StageText(stage)|..]);
        if sequence.None? || sequence.value.1 != "" || sequence.value.0 == 0 then None
        else Some((stage, sequence.value.0))
  }

  function Parse(s: string): Option<Version> {
    var major := ReadNumeral(s);
    if major.None? then None
    else
      var minor := ReadDotNumeral(major.value.1);
      if minor.None? then None
      else
        var patch := ReadDotNumeral(minor.value.1);
        if patch.None? then None
        else
          var stage := ReadStage(patch.value.1);
          if stage.None? then None
          else
            var v := Version(major.value.0, minor.value.0, patch.value.0, stage.value.0, stage.value.1);
            if Valid(v) then Some(v) else None
  }

  function StageString(v: Version): string {
    if v.stage.Stable? then "" else StageText(v.stage) + "." + Decimal(v.sequence)
  }

  function String(v: Version): string {
    Decimal(v.major) + ("." + (Decimal(v.minor) + ("." + (Decimal(v.patch) + StageString(v)))))
  }

  // X.Y.Z, X.Y.Z-beta.N and X.Y.Z-rc.N.
  lemma StringForms(v: Version)
    ensures var core := Decimal(v.major) + "." + Decimal(v.minor) + "." + Decimal(v.patch);
            String(v) == match v.stage
                         case Stable => core
                         case Beta => core + "-beta." + Decimal(v.sequence)
                         case Rc => core + "-rc." + Decimal(v.sequence)
  {
    assert "-beta" + "." == "-beta." && "-rc" + "." == "-rc.";
    assert StageString(v) == match v.stage
                             case Stable => ""
                             case Beta => "-beta." + Decimal(v.sequence)
                             case Rc => "-rc." + Decimal(v.sequence);
  }

  lemma ReadNumeralInverts(n: nat, rest: string)
    requires rest == "" || !IsDigit(rest[0])
    ensures ReadNumeral(Decimal(n) + rest) == Some((n, rest))
    ensures ReadDotNumeral("." + (Decimal(n) + rest)) == Some((n, rest))
  {
    ValueOfDecimal(n);
    DigitRunStops(Decimal(n), rest);
    assert ("." + (Decimal(n) + rest))[1..] == Decimal(n) + rest;
  }

  lemma ReadStageInverts(v: Version)
    requires Valid(v)
    ensures ReadStage(StageString(v)) == Some((v.stage, v.sequence))
  {
    if !v.stage.Stable? {
      var text, tail := StageText(v.stage), "." + Decimal(v.sequence);
      assert StageString(v) == text + tail && (text + tail)[|text|..] == tail;
      assert (text + tail)[1] == text[1];
      assert Decimal(v.sequence) + "" == Decimal(v.sequence);
      ReadNumeralInverts(v.sequence, "");
    }
  }

  // Parse(String(v)) is v.
  lemma ParseOfString(v: Version)
    requires Valid(v)
    ensures Parse(String(v)) == Some(v)
  {
    var stage := StageString(v);
    var patch := "." + (Decimal(v.patch) + stage);
    var minor := "." + (Decimal(v.minor) + patch);
    ReadNumeralInverts(v.major, minor);
    ReadNumeralInverts(v.minor, patch);
    ReadNumeralInverts(v.patch, stage);
    ReadStageInverts(v);
  }

  lemma ReadNumeralSplits(s: string)
    requires ReadNumeral(s).Some?
    ensures s == Decimal(ReadNumeral(s).value.0) + ReadNumeral(s).value.1
  {
    var n := DigitRun(s);
    DecimalOfValue(s[..n]);
    assert s == s[..n] + s[n..];
  }

  lemma ReadDotNumeralSplits(s: string)
    requires ReadDotNumeral(s).Some?
    ensures s == "." + (Decimal(ReadDotNumeral(s).value.0) + ReadDotNumeral(s).value.1)
  {
    ReadNumeralSplits(s[1..]);
    assert s == "." + s[1..];
  }

  lemma ReadStageSplits(s: string, v: Version)
    requires ReadStage(s) == Some((v.stage, v.sequence))
    ensures s == StageString(v)
  {
    if s != "" {
      var text := StageText(v.stage);
      assert s == text + s[|text|..];
      ReadDotNumeralSplits(s[|text|..]);
      assert Decimal(v.sequence) + "" == Decimal(v.sequence);
    }
  }

  // String(Parse(s)) is s: every accepted text is the canonical one.
  lemma StringOfParse(s: string)
    requires Parse(s).Some?
    ensures Valid(Parse(s).value) && String(Parse(s).value) == s
  {
    var v := Parse(s).value;
    var major := ReadNumeral(s).value;
    var minor := ReadDotNumeral(major.1).value;
    var patch := ReadDotNumeral(minor.1).value;
    ReadNumeralSplits(s);
    ReadDotNumeralSplits(major.1);
    ReadDotNumeralSplits(minor.1);
    ReadStageSplits(patch.1, v);
  }

  // A version reads back from its text exactly within the ranges: components up to
  // 65535, and from 1 to 29999 for the number of a prerelease.
  lemma AcceptedExactly(v: Version)
    requires v.stage.Stable? ==> v.sequence == 0
    ensures Parse(String(v)) == Some(v) <==>
            && v.major <= 65_535 && v.minor <= 65_535 && v.patch <= 65_535
            && (!v.stage.Stable? ==> 1 <= v.sequence <= 29_999)
  {
    if Parse(String(v)) == Some(v) {
      StringOfParse(String(v));
    }
    if Valid(v) {
      ParseOfString(v);
    }
  }

  // ---- Key ----

  predicate IsSpace(c: char) {
    c in {' ', '\t', '\n', '\r'} || c as int in {0x0B, 0x0C, 0x85, 0xA0}
  }

  function TrimSpace(s: string): string {
    if s == "" then ""
    else if IsSpace(s[0]) then TrimSpace(s[1..])
    else if IsSpace(s[|s| - 1]) then TrimSpace(s[..|s| - 1])
    else s
  }

  function TrimV(s: string): string {
    if s != "" && (s[0] == 'v' || s[0] == 'V') then s[1..] else s
  }

  // Tab to carriage return, blank, next line and the no-break space.
  lemma Spaces(c: char)
    ensures IsSpace(c) <==> 9 <= c as int <= 13 || c as int in {32, 133, 160}
  {
  }

  predicate AllSpaces(s: string) {
    forall i | 0 <= i < |s| :: IsSpace(s[i])
  }

  // Trimming takes the spaces from both ends and nothing else.
  lemma {:induction false} TrimSpaceExactly(s: string) returns (before: string, after: string)
    ensures s == before + TrimSpace(s) + after && AllSpaces(before) && AllSpaces(after)
    decreases |s|
  {
    before, after := "", "";
    if s != "" && IsSpace(s[0]) {
      before, after := TrimSpaceExactly(s[1..]);
      before := [s[0]] + before;
    } else if s != "" && IsSpace(s[|s| - 1]) {
      before, after := TrimSpaceExactly(s[..|s| - 1]);
      after := after + [s[|s| - 1]];
    }
  }

  lemma {:induction false} TrimmedEnds(s: string)
    ensures var t := TrimSpace(s);
            t != "" ==> !IsSpace(t[0]) && !IsSpace(t[|t| - 1])
    decreases |s|
  {
    if s != "" && IsSpace(s[0]) {
      TrimmedEnds(s[1..]);
    } else if s != "" && IsSpace(s[|s| - 1]) {
      TrimmedEnds(s[..|s| - 1]);
    }
  }

  lemma TrimVForms(s: string)
    ensures TrimV("v" + s) == s && TrimV("V" + s) == s
    ensures s == "" || s[0] !in {'v', 'V'} ==> TrimV(s) == s
  {
    assert ("v" + s)[1..] == s && ("V" + s)[1..] == s;
  }

  const MAX_INT := 0x7FFF_FFFF_FFFF_FFFF

  // Between one and four runs of digits, separated by dots.
  function LegacyParts(s: string, most: nat): Option<seq<nat>>
    decreases most
  {
    var n := DigitRun(s);
    if n == 0 || most == 0 || Value(s[..n]) > MAX_INT then None
    else if n == |s| then Some([Value(s[..n])])
    else if s[n] != '.' then None
    else
      var rest := LegacyParts(s[n + 1..], most - 1);
      if rest.None? then None else Some([Value(s[..n])] + rest.value)
  }

  lemma {:induction false} LegacyPartsCount(s: string, most: nat)
    ensures LegacyParts(s, most).Some? ==> 1 <= |LegacyParts(s, most).value| <= most
    decreases most
  {
    var n := DigitRun(s);
    if n < |s| && most > 0 {
      LegacyPartsCount(s[n + 1..], most - 1);
    }
  }

  // The text writes the numbers: digits, a dot, digits, and so on to its end.
  ghost predicate Writes(s: string, numbers: seq<nat>)
    decreases |numbers|, 1
  {
    numbers != [] && exists n: nat :: WritesFirst(s, n, numbers)
  }

  // The first n characters are the first number's.
  ghost predicate WritesFirst(s: string, n: nat, numbers: seq<nat>)
    requires numbers != []
    decreases |numbers|, 0
  {
    && 0 < n <= |s| && AllDigits(s[..n]) && Value(s[..n]) == numbers[0] <= 9_223_372_036_854_775_807
    && if |numbers| == 1 then n == |s| else n < |s| && s[n] == '.' && Writes(s[n + 1..], numbers[1..])
  }

  lemma RunOfDigits(s: string, n: nat)
    requires 0 < n <= |s| && AllDigits(s[..n]) && (n == |s| || s[n] == '.')
    ensures DigitRun(s) == n
  {
    DigitRunStops(s[..n], s[n..]);
    assert s == s[..n] + s[n..];
  }

  // What is read is written so.
  lemma {:induction false} LegacyPartsAreWritten(s: string, most: nat)
    requires LegacyParts(s, most).Some?
    ensures Writes(s, LegacyParts(s, most).value) && |LegacyParts(s, most).value| <= most
    decreases most
  {
    var n, numbers := DigitRun(s), LegacyParts(s, most).value;
    LegacyPartsCount(s, most);
    if n < |s| {
      LegacyPartsAreWritten(s[n + 1..], most - 1);
      assert numbers[1..] == LegacyParts(s[n + 1..], most - 1).value;
    }
    assert WritesFirst(s, n, numbers);
  }

  // And what is written so is read.
  lemma {:induction false} WrittenPartsAreRead(s: string, most: nat, numbers: seq<nat>)
    requires Writes(s, numbers) && |numbers| <= most
    ensures LegacyParts(s, most) == Some(numbers)
    decreases most
  {
    var n: nat :| WritesFirst(s, n, numbers);
    RunOfDigits(s, n);
    if |numbers| > 1 {
      WrittenPartsAreRead(s[n + 1..], most - 1, numbers[1..]);
      assert numbers == [numbers[0]] + numbers[1..];
    } else {
      assert numbers == [numbers[0]];
    }
  }

  function Rank(stage: Stage): nat {
    match stage
    case Beta => 0
    case Rc => 1
    case Stable => 2
  }

  function VersionKey(v: Version): seq<nat> {
    [v.major, v.minor, v.patch, 0, Rank(v.stage), v.sequence]
  }

  function PadKey(parts: seq<nat>): seq<nat>
    requires 2 <= |parts| <= 4
  {
    [parts[0], parts[1], if |parts| > 2 then parts[2] else 0, if |parts| > 3 then parts[3] else 0, 2, 0]
  }

  function Key(s: string): (key: Option<seq<nat>>)
    ensures key.Some? ==> |key.value| == 6
  {
    var bare := TrimV(TrimSpace(s));
    var v := Parse(bare);
    if v.Some? then Some(VersionKey(v.value))
    else
      var parts := LegacyParts(bare, 4);
      if parts.None? || |parts.value| < 2 then None
      else
        LegacyPartsCount(bare, 4);
        Some(PadKey(parts.value))
  }

  // A text that is no release version has a key iff it writes two to four numbers:
  // those, filled up with zeros, and then what makes it a stable version.
  lemma KeyOfNumbers(s: string, numbers: seq<nat>)
    requires Parse(TrimV(TrimSpace(s))).None? && Writes(TrimV(TrimSpace(s)), numbers)
    ensures Key(s) ==
            if |numbers| == 2 then Some([numbers[0], numbers[1], 0, 0, 2, 0])
            else if |numbers| == 3 then Some([numbers[0], numbers[1], numbers[2], 0, 2, 0])
            else if |numbers| == 4 then Some([numbers[0], numbers[1], numbers[2], numbers[3], 2, 0])
            else None
  {
    var bare := TrimV(TrimSpace(s));
    if |numbers| <= 4 {
      WrittenPartsAreRead(bare, 4, numbers);
    } else if LegacyParts(bare, 4).Some? {
      LegacyPartsAreWritten(bare, 4);
      WrittenPartsAreRead(bare, |numbers|, LegacyParts(bare, 4).value);
      WrittenPartsAreRead(bare, |numbers|, numbers);
    }
  }

  lemma NoKeyWithoutNumbers(s: string)
    requires Parse(TrimV(TrimSpace(s))).None? && forall numbers :: !Writes(TrimV(TrimSpace(s)), numbers)
    ensures Key(s).None?
  {
    if LegacyParts(TrimV(TrimSpace(s)), 4).Some? {
      LegacyPartsAreWritten(TrimV(TrimSpace(s)), 4);
    }
  }

  // Older versions of four parts keep their key, whatever release versions are.
  lemma KeyOfFourParts(a: nat, b: nat, c: nat, d: nat)
    requires a <= MAX_INT && b <= MAX_INT && c <= MAX_INT && d <= MAX_INT
    ensures Key(Dotted(a, b, c, d)) == Some([a, b, c, d, 2, 0])
  {
    FourPartsAreNoRelease(a, b, c, d);
    DottedReadsBack(a, b, c, d);
    ValueOfDecimal(a);
    ValueOfDecimal(d);
    DottedIsTrimmed(a, b, c, d);
  }

  lemma DottedIsTrimmed(a: nat, b: nat, c: nat, d: nat)
    ensures TrimSpace(Dotted(a, b, c, d)) == Dotted(a, b, c, d) && TrimV(Dotted(a, b, c, d)) == Dotted(a, b, c, d)
  {
    ValueOfDecimal(a);
    ValueOfDecimal(d);
    LastOfConcatenation(".", Decimal(d));
    LastOfConcatenation(Decimal(c), "." + Decimal(d));
    LastOfConcatenation(".", Decimal(c) + ("." + Decimal(d)));
    LastOfConcatenation(Decimal(b), "." + (Decimal(c) + ("." + Decimal(d))));
    LastOfConcatenation(".", Decimal(b) + ("." + (Decimal(c) + ("." + Decimal(d)))));
    LastOfConcatenation(Decimal(a), "." + (Decimal(b) + ("." + (Decimal(c) + ("." + Decimal(d))))));
  }

  lemma FourPartsAreNoRelease(a: nat, b: nat, c: nat, d: nat)
    ensures Parse(Dotted(a, b, c, d)).None?
  {
    var last := "." + Decimal(d);
    ReadNumeralInverts(c, last);
    ReadNumeralInverts(b, "." + (Decimal(c) + last));
    ReadNumeralInverts(a, "." + (Decimal(b) + ("." + (Decimal(c) + last))));
    assert last[0] == '.' && StageText(Beta)[0] == '-' && StageText(Rc)[0] == '-';
  }

  lemma LastOfConcatenation(a: string, b: string)
    requires b != ""
    ensures (a + b)[|a + b| - 1] == b[|b| - 1]
  {
  }

  lemma StringEndsInDigits(v: Version)
    ensures var s := String(v); s != "" && IsDigit(s[0]) && IsDigit(s[|s| - 1])
  {
    ValueOfDecimal(v.major);
    ValueOfDecimal(v.patch);
    ValueOfDecimal(v.sequence);
    var stage := StageString(v);
    var tail := Decimal(v.patch) + stage;
    assert IsDigit(tail[|tail| - 1]) by {
      if v.stage.Stable? {
        assert tail == Decimal(v.patch);
      } else {
        LastOfConcatenation(StageText(v.stage) + ".", Decimal(v.sequence));
        LastOfConcatenation(Decimal(v.patch), stage);
      }
    }
    var minor := Decimal(v.minor) + ("." + tail);
    LastOfConcatenation(".", tail);
    LastOfConcatenation(Decimal(v.minor), "." + tail);
    LastOfConcatenation(".", minor);
    LastOfConcatenation(Decimal(v.major), "." + minor);
  }

  lemma StringIsTrimmed(v: Version)
    ensures TrimSpace(String(v)) == String(v) && TrimV(String(v)) == String(v)
    ensures TrimSpace("v" + String(v)) == "v" + String(v) && TrimV("v" + String(v)) == String(v)
  {
    StringEndsInDigits(v);
    LastOfConcatenation("v", String(v));
    assert ("v" + String(v))[1..] == String(v);
  }

  // The key of a valid version's text, with or without the tag's prefix.
  lemma KeyOfString(v: Version)
    requires Valid(v)
    ensures Key(String(v)) == Some(VersionKey(v)) && Key("v" + String(v)) == Some(VersionKey(v))
  {
    StringIsTrimmed(v);
    ParseOfString(v);
  }

  // ---- Windows ----

  // First difference decides.
  predicate Greater(a: seq<nat>, b: seq<nat>)
    requires |a| == |b|
  {
    if a == [] then false else if a[0] != b[0] then a[0] > b[0] else Greater(a[1..], b[1..])
  }

  function WindowsParts(v: Version): seq<nat> {
    [v.major, v.minor, v.patch,
     match v.stage
     case Beta => v.sequence
     case Rc => 30000 + v.sequence
     case Stable => 65535]
  }

  function Windows(v: Version): string {
    var parts := WindowsParts(v);
    Dotted(parts[0], parts[1], parts[2], parts[3])
  }

  // The revision: the number of a beta, that of a release candidate behind all of
  // those, and the last one for a stable release.
  lemma WindowsRevision(v: Version)
    ensures WindowsParts(v)[..3] == [v.major, v.minor, v.patch]
    ensures WindowsParts(v)[3] == (if v.stage.Beta? then 0 else if v.stage.Rc? then 30_000 else 65_535) +
                                  (if v.stage.Stable? then 0 else v.sequence)
  {
  }

  lemma LegacyPartsCons(n: nat, rest: string, most: nat)
    requires n <= MAX_INT && most > 1
    ensures LegacyParts(Decimal(n) + ("." + rest), most) ==
            if LegacyParts(rest, most - 1).Some? then Some([n] + LegacyParts(rest, most - 1).value) else None
  {
    ValueOfDecimal(n);
    DigitRunStops(Decimal(n), "." + rest);
    assert (Decimal(n) + ("." + rest))[|Decimal(n)| + 1..] == rest;
  }

  lemma LegacyPartsLast(n: nat)
    requires n <= MAX_INT
    ensures LegacyParts(Decimal(n), 1) == Some([n])
  {
    ValueOfDecimal(n);
    DigitRunStops(Decimal(n), "");
    assert Decimal(n) + "" == Decimal(n);
  }

  function Dotted(a: nat, b: nat, c: nat, d: nat): string {
    Decimal(a) + ("." + (Decimal(b) + ("." + (Decimal(c) + ("." + Decimal(d))))))
  }

  lemma DottedReadsBack(a: nat, b: nat, c: nat, d: nat)
    requires a <= MAX_INT && b <= MAX_INT && c <= MAX_INT && d <= MAX_INT
    ensures LegacyParts(Dotted(a, b, c, d), 4) == Some([a, b, c, d])
  {
    LegacyPartsLast(d);
    LegacyPartsCons(c, Decimal(d), 2);
    LegacyPartsCons(b, Decimal(c) + ("." + Decimal(d)), 3);
    LegacyPartsCons(a, Decimal(b) + ("." + (Decimal(c) + ("." + Decimal(d)))), 4);
    assert [a] + ([b] + ([c] + [d])) == [a, b, c, d];
  }

  // The dotted text says exactly the four parts.
  lemma WindowsReadsBack(v: Version)
    requires Valid(v)
    ensures LegacyParts(Windows(v), 4) == Some(WindowsParts(v))
  {
    var parts := WindowsParts(v);
    DottedReadsBack(parts[0], parts[1], parts[2], parts[3]);
  }

  lemma GreaterCons(x: nat, a: seq<nat>, y: nat, b: seq<nat>)
    requires |a| == |b|
    ensures Greater([x] + a, [y] + b) <==> if x != y then x > y else Greater(a, b)
  {
  }

  // Two lists that differ in their first three parts, or only after them.
  lemma GreaterOfThree(a: seq<nat>, b: seq<nat>)
    requires |a| == |b| >= 3
    ensures Greater(a, b) <==>
            if a[0] != b[0] then a[0] > b[0]
            else if a[1] != b[1] then a[1] > b[1]
            else if a[2] != b[2] then a[2] > b[2]
            else Greater(a[3..], b[3..])
  {
    assert a == [a[0]] + ([a[1]] + ([a[2]] + a[3..])) && b == [b[0]] + ([b[1]] + ([b[2]] + b[3..]));
    GreaterCons(a[0], [a[1]] + ([a[2]] + a[3..]), b[0], [b[1]] + ([b[2]] + b[3..]));
    GreaterCons(a[1], [a[2]] + a[3..], b[1], [b[2]] + b[3..]);
    GreaterCons(a[2], a[3..], b[2], b[3..]);
  }

  // Four 16-bit parts, in exactly the order of the keys: what compares Windows
  // versions and what compares keys never disagree.
  lemma WindowsEmbedsKeys(v: Version, w: Version)
    requires Valid(v) && Valid(w)
    ensures forall i | 0 <= i < 4 :: WindowsParts(v)[i] <= 65535
    ensures Greater(WindowsParts(v), WindowsParts(w)) <==> Greater(VersionKey(v), VersionKey(w))
    ensures WindowsParts(v) == WindowsParts(w) <==> v == w
  {
    var p, q, k, l := WindowsParts(v), WindowsParts(w), VersionKey(v), VersionKey(w);
    GreaterOfThree(p, q);
    GreaterOfThree(k, l);
    GreaterOfThree(k[3..], l[3..]);
    GreaterCons(p[3], [], q[3], []);
    assert p[3..] == [p[3]] && q[3..] == [q[3]];
    if p == q {
      assert p[0] == q[0] && p[1] == q[1] && p[2] == q[2] && p[3] == q[3];
    }
  }

  // Greater orders keys of one length totally.
  lemma {:induction false} GreaterIsTotal(a: seq<nat>, b: seq<nat>)
    requires |a| == |b|
    ensures !(Greater(a, b) && Greater(b, a))
    ensures a != b <==> Greater(a, b) || Greater(b, a)
    decreases |a|
  {
    if a != [] {
      GreaterIsTotal(a[1..], b[1..]);
      assert a == [a[0]] + a[1..] && b == [b[0]] + b[1..];
    }
  }

  lemma {:induction false} GreaterIsTransitive(a: seq<nat>, b: seq<nat>, c: seq<nat>)
    requires |a| == |b| == |c| && Greater(a, b) && Greater(b, c)
    ensures Greater(a, c)
    decreases |a|
  {
    if a[0] == b[0] == c[0] {
      GreaterIsTransitive(a[1..], b[1..], c[1..]);
    }
  }
}
