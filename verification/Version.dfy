/**
 Ageing a version string: the packed build number of a stable version, the UTC date of a nightly one.
 The two scales never mix: a version carrying the nightly marker is aged by its date or not at all.
 */
module Version {

  const TWO_64 := 0x1_0000_0000_0000_0000
  const FIELD_RADIX := 1_000
  const NIGHTLY_MARK := "-nightly."

  /** A build number, nothing this beacon can age, or the checked-arithmetic panic of the packing. */
  datatype Packed = Build(n: nat) | Unageable | Panics

  // ---------------------------------------------------------------- string primitives

  predicate IsSpace(c: char) {
    var n := c as int;
    9 <= n <= 13 || n in {0x20, 0x85, 0xA0, 0x1680, 0x2028, 0x2029, 0x202F, 0x205F, 0x3000} || 0x2000 <= n <= 0x200A
  }

  function TrimStart(s: string): string {
    if s != "" && IsSpace(s[0]) then TrimStart(s[1..]) else s
  }

  function TrimEnd(s: string): string {
    if s != "" && IsSpace(s[|s| - 1]) then TrimEnd(s[..|s| - 1]) else s
  }

  function Trim(s: string): string { TrimEnd(TrimStart(s)) }

  function StripV(s: string): string {
    if s != "" && s[0] == 'v' then s[1..] else s
  }

  /** What precedes the first character in `stops`. */
  function Before(s: string, stops: set<char>): string {
    if s == "" || s[0] in stops then "" else [s[0]] + Before(s[1..], stops)
  }

  function Split(s: string, sep: char): (parts: seq<string>)
    ensures |parts| >= 1
  {
    if s == "" then [""]
    else
      var rest := Split(s[1..], sep);
      if s[0] == sep then [""] + rest else [[s[0]] + rest[0]] + rest[1..]
  }

  datatype Index = At(i: nat) | Nowhere

  /** Where `needle` first occurs. */
  function Find(s: string, needle: string): (r: Index)
    ensures r.At? ==> r.i + |needle| <= |s| && s[r.i..r.i + |needle|] == needle
  {
    if needle <= s then At(0)
    else if s == "" then Nowhere
    else match Find(s[1..], needle)
         case At(i) => At(i + 1)
         case Nowhere => Nowhere
  }

  predicate IsDigit(c: char) { '0' <= c <= '9' }

  predicate AllDigits(s: string) {
    forall i :: 0 <= i < |s| ==> IsDigit(s[i])
  }

  function DigitsValue(s: string): nat
    requires AllDigits(s)
  {
    if s == "" then 0 else 10 * DigitsValue(s[..|s| - 1]) + (s[|s| - 1] - '0') as nat
  }

  datatype Parsed = Num(n: nat) | NaN

  /** The standard library's `u64` parser: an optional `+`, then decimal digits, below 2^64. */
  function ParseU64(s: string): Parsed {
    var digits := if s != "" && s[0] == '+' then s[1..] else s;
    if digits == "" || !AllDigits(digits) || DigitsValue(digits) >= TWO_64 then NaN else Num(DigitsValue(digits))
  }

  // ---------------------------------------------------------------- pack_build

  function PackFields(major: nat, minor: nat, patch: nat): nat {
    major * FIELD_RADIX * FIELD_RADIX + minor * FIELD_RADIX + patch
  }

  function NightlyBuildDate(version: string): Packed {
    match Find(version, NIGHTLY_MARK)
    case Nowhere => Unageable
    case At(i) =>
      var after := version[i + |NIGHTLY_MARK|..];
      var segment := match Find(after, NIGHTLY_MARK) case At(j) => after[..j] case Nowhere => after;
      var date := Before(segment, {'.'});
      if |date| != 8 || !AllDigits(date) then Unageable
      else match ParseU64(date) case Num(n) => Build(n) case NaN => Unageable
  }

  function PackCore(core: string): Packed {
    var parts := Split(core, '.');
    if |parts| < 3 then Unageable
    else match (ParseU64(parts[0]), ParseU64(parts[1]), ParseU64(parts[2]))
         case (Num(major), Num(minor), Num(patch)) =>
           if |parts| > 3 || minor >= FIELD_RADIX || patch >= FIELD_RADIX then Unageable
           else if PackFields(major, minor, patch) >= TWO_64 then Panics
           else Build(PackFields(major, minor, patch))
         case _ => Unageable
  }

  function PackBuild(version: string): Packed {
    if Find(version, NIGHTLY_MARK).At? then NightlyBuildDate(version)
    else PackCore(Before(StripV(Trim(version)), {'-', '+'}))
  }

  /** The whitespace-separated tokens of a probe's answer. */
  function Tokens(s: string): seq<string>
    decreases |s|
  {
    if s == "" then []
    else if IsSpace(s[0]) then Tokens(s[1..])
    else
      var token := Word(s);
      WordFits(s);
      [token] + Tokens(s[|token|..])
  }

  /** What precedes the first whitespace. */
  function Word(s: string): (w: string) {
    if s == "" || IsSpace(s[0]) then "" else [s[0]] + Word(s[1..])
  }

  lemma {:induction false} WordFits(s: string)
    ensures Word(s) <= s
    ensures s != "" && !IsSpace(s[0]) ==> |Word(s)| >= 1
  {
    if s != "" { WordFits(s[1..]); }
  }

  function FirstPacked(tokens: seq<string>): Packed {
    if tokens == [] then Unageable
    else if PackBuild(tokens[0]) != Unageable then PackBuild(tokens[0])
    else FirstPacked(tokens[1..])
  }

  /** The build a probe's answer packs to: its first token that is a version. */
  function InstalledBuildOf(raw: string): Packed { FirstPacked(Tokens(raw)) }

  // ---------------------------------------------------------------- the packing is an order embedding

  /** Semantic-version order on (major, minor, patch). */
  predicate Older(a: (nat, nat, nat), b: (nat, nat, nat)) {
    a.0 < b.0 || (a.0 == b.0 && (a.1 < b.1 || (a.1 == b.1 && a.2 < b.2)))
  }

  /** With fields below the radix, packing preserves and reflects the order, so it is injective too. */
  lemma {:induction false} PackingIsAnOrderEmbedding(a: (nat, nat, nat), b: (nat, nat, nat))
    requires a.1 < FIELD_RADIX && a.2 < FIELD_RADIX && b.1 < FIELD_RADIX && b.2 < FIELD_RADIX
    ensures PackFields(a.0, a.1, a.2) < PackFields(b.0, b.1, b.2) <==> Older(a, b)
    ensures PackFields(a.0, a.1, a.2) == PackFields(b.0, b.1, b.2) <==> a == b
  {
    assert forall m: nat :: m * FIELD_RADIX * FIELD_RADIX == 1_000_000 * m;
    if a.0 < b.0 { assert 1_000_000 * a.0 + 1_000_000 <= 1_000_000 * b.0; }
    if b.0 < a.0 { assert 1_000_000 * b.0 + 1_000_000 <= 1_000_000 * a.0; }
  }

  /** The largest major version every minor and patch of which packs without the panic. */
  const LAST_SAFE_MAJOR := 18_446_744_073_708

  lemma {:induction false} SafeMajorsNeverPanic(major: nat)
    ensures major <= LAST_SAFE_MAJOR <==>
            forall minor: nat, patch: nat :: minor < FIELD_RADIX && patch < FIELD_RADIX ==>
                PackFields(major, minor, patch) < TWO_64
  {
    if major > LAST_SAFE_MAJOR {
      assert major * FIELD_RADIX * FIELD_RADIX >= 18_446_744_073_709_000_000;
      assert PackFields(major, 999, 999) >= TWO_64;
    }
  }

  // ---------------------------------------------------------------- decimal printing

  function Digit(n: nat): char
    requires n < 10
  {
    '0' + n as char
  }

  function Decimal(n: nat): (s: string)
    ensures s != "" && AllDigits(s)
  {
    if n < 10 then [Digit(n)] else Decimal(n / 10) + [Digit(n % 10)]
  }

  /** Exactly `width` digits, most significant first. */
  function Padded(n: nat, width: nat): (s: string)
    ensures |s| == width && AllDigits(s)
  {
    if width == 0 then "" else Padded(n / 10, width - 1) + [Digit(n % 10)]
  }

  function Pow10(k: nat): nat { if k == 0 then 1 else 10 * Pow10(k - 1) }

  lemma {:induction false} DecimalReads(n: nat)
    ensures DigitsValue(Decimal(n)) == n
  {
    if n >= 10 {
      DecimalReads(n / 10);
      assert Decimal(n)[..|Decimal(n)| - 1] == Decimal(n / 10);
    } else {
      assert DigitsValue("") == 0 && Decimal(n)[..0] == "";
    }
  }

  lemma {:induction false} PaddedReads(n: nat, width: nat)
    requires n < Pow10(width)
    ensures DigitsValue(Padded(n, width)) == n
  {
    if width > 0 {
      PaddedReads(n / 10, width - 1);
      assert Padded(n, width)[..width - 1] == Padded(n / 10, width - 1);
    }
  }

  lemma {:induction false} TenTimes(a: nat, b: nat)
    ensures a * (10 * b) == 10 * (a * b)
  {}

  lemma {:induction false} DigitsConcat(a: string, b: string)
    requires AllDigits(a) && AllDigits(b)
    ensures AllDigits(a + b) && DigitsValue(a + b) == DigitsValue(a) * Pow10(|b|) + DigitsValue(b)
    decreases |b|
  {
    if b == "" {
      assert a + b == a;
    } else {
      var front, whole := b[..|b| - 1], a + b;
      DigitsConcat(a, front);
      assert whole[..|whole| - 1] == a + front && whole[|whole| - 1] == b[|b| - 1];
      assert DigitsValue(whole) == 10 * DigitsValue(a + front) + (b[|b| - 1] - '0') as nat;
      TenTimes(DigitsValue(a), Pow10(|front|));
    }
  }

  // ---------------------------------------------------------------- parsing what was printed

  lemma {:induction false} BeforeStops(a: string, b: string, stops: set<char>)
    requires forall i :: 0 <= i < |a| ==> a[i] !in stops
    requires b == "" || b[0] in stops
    ensures Before(a + b, stops) == a
    decreases |a|
  {
    if a == "" {
      assert a + b == b;
    } else {
      assert (a + b)[1..] == a[1..] + b;
      BeforeStops(a[1..], b, stops);
    }
  }

  lemma {:induction false} SplitWord(a: string, sep: char)
    requires sep !in a
    ensures Split(a, sep) == [a]
    decreases |a|
  {
    if a != "" {
      SplitWord(a[1..], sep);
      assert [a[0]] + a[1..] == a;
    }
  }

  lemma {:induction false} SplitHead(a: string, b: string, sep: char)
    requires sep !in a
    ensures Split(a + [sep] + b, sep) == [a] + Split(b, sep)
    decreases |a|
  {
    var s := a + [sep] + b;
    if a == "" {
      assert s[1..] == b;
    } else {
      assert s[1..] == a[1..] + [sep] + b;
      SplitHead(a[1..], b, sep);
      assert [a[0]] + a[1..] == a && s[0] == a[0];
      assert ([a[1..]] + Split(b, sep))[1..] == Split(b, sep);
    }
  }

  /** A leading `v` or digit and a tail that does not end in whitespace: nothing to trim inside the padding. */
  lemma {:induction false} TrimPadding(left: string, s: string, right: string)
    requires forall i :: 0 <= i < |left| ==> IsSpace(left[i])
    requires forall i :: 0 <= i < |right| ==> IsSpace(right[i])
    requires s != "" && !IsSpace(s[0]) && !IsSpace(s[|s| - 1])
    ensures Trim(left + s + right) == s
  {
    TrimLeft(left, s + right);
    assert left + s + right == left + (s + right);
    TrimRight(s, right);
  }

  lemma {:induction false} TrimLeft(left: string, s: string)
    requires forall i :: 0 <= i < |left| ==> IsSpace(left[i])
    requires s != "" && !IsSpace(s[0])
    ensures TrimStart(left + s) == s
    decreases |left|
  {
    if left == "" {
      assert left + s == s;
    } else {
      assert (left + s)[1..] == left[1..] + s;
      TrimLeft(left[1..], s);
    }
  }

  lemma {:induction false} TrimRight(s: string, right: string)
    requires forall i :: 0 <= i < |right| ==> IsSpace(right[i])
    requires s != "" && !IsSpace(s[|s| - 1])
    ensures TrimEnd(s + right) == s
    decreases |right|
  {
    if right == "" {
      assert s + right == s;
    } else {
      assert (s + right)[..|s + right| - 1] == s + right[..|right| - 1];
      TrimRight(s, right[..|right| - 1]);
    }
  }

  function Core(major: nat, minor: nat, patch: nat): string {
    Decimal(major) + ['.'] + (Decimal(minor) + ['.'] + Decimal(patch))
  }

  lemma {:induction false} ParseDecimal(n: nat)
    ensures ParseU64(Decimal(n)) == if n < TWO_64 then Num(n) else NaN
    ensures '.' !in Decimal(n)
  {
    DecimalReads(n);
    assert forall i :: 0 <= i < |Decimal(n)| ==> IsDigit(Decimal(n)[i]);
  }

  lemma {:induction false} SplitCore(major: nat, minor: nat, patch: nat)
    ensures Split(Core(major, minor, patch), '.') == [Decimal(major), Decimal(minor), Decimal(patch)]
  {
    ParseDecimal(major);
    ParseDecimal(minor);
    ParseDecimal(patch);
    SplitHead(Decimal(major), Decimal(minor) + ['.'] + Decimal(patch), '.');
    SplitHead(Decimal(minor), Decimal(patch), '.');
    SplitWord(Decimal(patch), '.');
  }

  lemma {:induction false} PackPrintedCore(major: nat, minor: nat, patch: nat)
    requires major < TWO_64 && minor < FIELD_RADIX && patch < FIELD_RADIX
    ensures PackCore(Core(major, minor, patch)) ==
            if PackFields(major, minor, patch) < TWO_64 then Build(PackFields(major, minor, patch)) else Panics
  {
    ParseDecimal(major);
    ParseDecimal(minor);
    ParseDecimal(patch);
    SplitCore(major, minor, patch);
  }

  /**
   Any printed form of a stable version parses back to its packed number: surrounding whitespace, an
   optional `v`, and a pre-release or build suffix that is not a nightly one.
   */
  lemma {:induction false} StableRoundTrip(left: string, v: string, major: nat, minor: nat, patch: nat, suffix: string,
                                           right: string)
    requires forall i :: 0 <= i < |left| ==> IsSpace(left[i])
    requires forall i :: 0 <= i < |right| ==> IsSpace(right[i])
    requires v in {"", "v"} && major < TWO_64 && minor < FIELD_RADIX && patch < FIELD_RADIX
    requires suffix == "" || (suffix[0] in {'-', '+'} && !IsSpace(suffix[|suffix| - 1]))
    requires Find(left + (v + (Core(major, minor, patch) + suffix)) + right, NIGHTLY_MARK).Nowhere?
    ensures PackBuild(left + (v + (Core(major, minor, patch) + suffix)) + right) ==
            if PackFields(major, minor, patch) < TWO_64 then Build(PackFields(major, minor, patch)) else Panics
  {
    var core := Core(major, minor, patch);
    var s := v + (core + suffix);
    CoreChars(major, minor, patch);
    assert s[|s| - 1] == if suffix == "" then core[|core| - 1] else suffix[|suffix| - 1];
    TrimPadding(left, s, right);
    assert StripV(s) == core + suffix;
    BeforeStops(core, suffix, {'-', '+'});
    PackPrintedCore(major, minor, patch);
  }

  lemma {:induction false} CoreChars(major: nat, minor: nat, patch: nat)
    ensures var core := Core(major, minor, patch);
            core != "" && IsDigit(core[0]) && IsDigit(core[|core| - 1])
            && forall i :: 0 <= i < |core| ==> core[i] !in {'-', '+'} && !IsSpace(core[i])
  {
    var core := Core(major, minor, patch);
    assert core[0] == Decimal(major)[0];
    assert core[|core| - 1] == Decimal(patch)[|Decimal(patch)| - 1];
    forall i | 0 <= i < |core| ensures IsDigit(core[i]) || core[i] == '.' {
      var a, b := |Decimal(major)|, |Decimal(minor)|;
      assert core[i] == if i < a then Decimal(major)[i] else if i == a then '.'
                        else if i < a + 1 + b then Decimal(minor)[i - a - 1]
                        else if i == a + 1 + b then '.' else Decimal(patch)[i - a - b - 2];
    }
  }

  // ---------------------------------------------------------------- nightlies

  /** The marker is found where it is written, when nothing before it contains it. */
  lemma {:induction false} FindFirst(pre: string, rest: string)
    requires Find(pre, NIGHTLY_MARK).Nowhere?
    ensures Find(pre + NIGHTLY_MARK + rest, NIGHTLY_MARK) == At(|pre|)
    decreases |pre|
  {
    var s := pre + NIGHTLY_MARK + rest;
    if pre == "" {
      assert s == NIGHTLY_MARK + rest;
    } else {
      assert s[1..] == pre[1..] + NIGHTLY_MARK + rest;
      FindFirst(pre[1..], rest);
      MarkNeverOverlaps(pre, rest);
    }
  }

  /** The marker's only dash is its first character, so it cannot start inside `pre` and end past it. */
  lemma {:induction false} MarkNeverOverlaps(pre: string, rest: string)
    requires pre != "" && !(NIGHTLY_MARK <= pre)
    ensures !(NIGHTLY_MARK <= pre + NIGHTLY_MARK + rest)
  {
    var s, n := pre + NIGHTLY_MARK + rest, |pre|;
    if n >= 9 {
      assert s[..9] == pre[..9];
    } else {
      assert s[n] == '-';
      assert NIGHTLY_MARK[1] == 'n' && NIGHTLY_MARK[2] == 'i' && NIGHTLY_MARK[3] == 'g' && NIGHTLY_MARK[4] == 'h';
      assert NIGHTLY_MARK[5] == 't' && NIGHTLY_MARK[6] == 'l' && NIGHTLY_MARK[7] == 'y' && NIGHTLY_MARK[8] == '.';
      assert NIGHTLY_MARK[n] != '-';
    }
  }

  /** The text after the marker, up to the next `.` or the next marker: where a nightly's date must be. */
  function DateSegment(rest: string): string {
    Before(match Find(rest, NIGHTLY_MARK) case At(j) => rest[..j] case Nowhere => rest, {'.'})
  }

  /**
   A version carrying the marker is aged by its date segment alone: eight digits give the date, anything
   else is un-ageable. The semantic version in front of the marker never reaches the result.
   */
  lemma {:induction false} NightlyIsAgedByDateAlone(pre: string, rest: string)
    requires Find(pre, NIGHTLY_MARK).Nowhere?
    ensures var date := DateSegment(rest);
            PackBuild(pre + NIGHTLY_MARK + rest) ==
            if |date| == 8 && AllDigits(date) then Build(DigitsValue(date)) else Unageable
  {
    var version, date := pre + NIGHTLY_MARK + rest, DateSegment(rest);
    FindFirst(pre, rest);
    assert version[|pre| + |NIGHTLY_MARK|..] == rest;
    if |date| == 8 && AllDigits(date) {
      EightDigitsFit(date);
      assert date[0] != '+';
    }
  }

  lemma {:induction false} EightDigitsFit(date: string)
    requires |date| == 8 && AllDigits(date)
    ensures DigitsValue(date) < 100_000_000
  {
    BelowPow10(date);
    assert Pow10(8) == 100_000_000;
  }

  lemma {:induction false} BelowPow10(s: string)
    requires AllDigits(s)
    ensures DigitsValue(s) < Pow10(|s|)
    decreases |s|
  {
    if s != "" { BelowPow10(s[..|s| - 1]); }
  }

  function DateText(year: nat, month: nat, day: nat): string {
    Padded(year, 4) + Padded(month, 2) + Padded(day, 2)
  }

  /** A printed nightly packs to its date, and dates pack in calendar order. */
  lemma {:induction false} NightlyRoundTrip(pre: string, year: nat, month: nat, day: nat, sha: string)
    requires Find(pre, NIGHTLY_MARK).Nowhere? && year < 10_000 && month < 100 && day < 100
    ensures PackBuild(pre + NIGHTLY_MARK + (DateText(year, month, day) + ("." + sha))) ==
            Build(year * 10_000 + month * 100 + day)
  {
    DateReads(year, month, day);
    SegmentIsDate(DateText(year, month, day), sha);
    NightlyIsAgedByDateAlone(pre, DateText(year, month, day) + ("." + sha));
  }

  lemma {:induction false} SegmentIsDate(text: string, sha: string)
    requires |text| == 8 && AllDigits(text)
    ensures DateSegment(text + ("." + sha)) == text
  {
    var tail := "." + sha;
    var rest := text + tail;
    match Find(rest, NIGHTLY_MARK) {
      case Nowhere => BeforeStops(text, tail, {'.'});
      case At(j) =>
        assert rest[j..j + |NIGHTLY_MARK|][0] == rest[j];
        assert rest[j] == '-' && rest[8] == '.';
        assert forall i :: 0 <= i < 8 ==> rest[i] == text[i];
        assert rest[..j] == text + tail[..j - 8];
        BeforeStops(text, tail[..j - 8], {'.'});
    }
  }

  lemma {:induction false} DateReads(year: nat, month: nat, day: nat)
    requires year < 10_000 && month < 100 && day < 100
    ensures var text := DateText(year, month, day);
            |text| == 8 && AllDigits(text) && DigitsValue(text) == year * 10_000 + month * 100 + day
  {
    assert Pow10(2) == 100 && Pow10(4) == 10_000;
    PaddedReads(year, 4);
    PaddedReads(month, 2);
    PaddedReads(day, 2);
    DigitsConcat(Padded(year, 4), Padded(month, 2));
    DigitsConcat(Padded(year, 4) + Padded(month, 2), Padded(day, 2));
  }

  /** Nightly builds compare as their calendar dates do. */
  lemma {:induction false} NightlyOrder(a: (nat, nat, nat), b: (nat, nat, nat))
    requires a.1 < 100 && a.2 < 100 && b.1 < 100 && b.2 < 100
    ensures a.0 * 10_000 + a.1 * 100 + a.2 < b.0 * 10_000 + b.1 * 100 + b.2 <==> Older(a, b)
  {}

  // ---------------------------------------------------------------- the probe's line

  lemma {:induction false} WordStops(w: string, rest: string)
    requires forall i :: 0 <= i < |w| ==> !IsSpace(w[i])
    requires rest == "" || IsSpace(rest[0])
    ensures Word(w + rest) == w
    decreases |w|
  {
    if w == "" {
      assert w + rest == rest;
    } else {
      assert (w + rest)[1..] == w[1..] + rest;
      WordStops(w[1..], rest);
    }
  }

  /** `<program> <version> ...` ages to the version, whatever detail follows it. */
  lemma {:induction false} ProbeLineAgesToItsVersion(program: string, version: string, detail: string)
    requires program != "" && forall i :: 0 <= i < |program| ==> !IsSpace(program[i])
    requires version != "" && forall i :: 0 <= i < |version| ==> !IsSpace(version[i])
    requires PackBuild(program) == Unageable && PackBuild(version) != Unageable
    requires detail == "" || IsSpace(detail[0])
    ensures InstalledBuildOf(program + (" " + (version + detail))) == PackBuild(version)
  {
    var tail := version + detail;
    WordStops(program, " " + tail);
    WordStops(version, detail);
    var line := program + (" " + tail);
    assert line[|program|..] == " " + tail && (" " + tail)[1..] == tail;
    assert Tokens(" " + tail) == Tokens(tail);
    assert Tokens(line) == [program] + Tokens(tail);
    assert tail[|version|..] == detail;
    assert Tokens(tail) == [version] + Tokens(detail);
    assert Tokens(line)[1..] == Tokens(tail) && Tokens(tail)[0] == version;
    assert FirstPacked(Tokens(tail)) == PackBuild(version);
  }
}
