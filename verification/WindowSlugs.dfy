/**
 The slug of a rolling market: asset, interval and start of its window, printed as text and parsed back.
 */
module WindowSlugs {
  import opened Wrappers
  import opened Calendar
  import opened RollingWindows
  import Grid

  // ------------------------------------------------------------------ digits

  predicate IsDigit(c: char) { '0' <= c <= '9' }

  function Digit(n: int): char
    requires 0 <= n < 10
  {
    "0123456789"[n]
  }

  function DigitValue(c: char): int
    requires IsDigit(c)
  {
    c as int - '0' as int
  }

  predicate DigitsIn(s: string, from: nat, to: nat)
    requires from <= to <= |s|
  {
    forall i :: from <= i < to ==> IsDigit(s[i])
  }

  predicate AllDigits(s: string) {
    DigitsIn(s, 0, |s|)
  }

  /** The number written in the characters from `from` up to `to`. */
  function NumberIn(s: string, from: nat, to: nat): (n: int)
    requires from <= to <= |s| && DigitsIn(s, from, to)
    ensures n >= 0
  {
    if from == to then 0 else NumberIn(s, from, to - 1) * 10 + DigitValue(s[to - 1])
  }

  function Decimal(n: nat): (s: string)
    ensures s != [] && AllDigits(s)
  {
    if n < 10 then [Digit(n)] else Decimal(n / 10) + [Digit(n % 10)]
  }

  /** The last digits of n, padded with zeros. */
  function Pad(n: nat, width: nat): (s: string)
    ensures |s| == width && AllDigits(s)
  {
    if width == 0 then [] else Pad(n / 10, width - 1) + [Digit(n % 10)]
  }

  function Pow10(n: nat): nat { if n == 0 then 1 else 10 * Pow10(n - 1) }

  /** The text stands in s at the given place. */
  ghost predicate Reads(s: string, from: nat, text: string) {
    from + |text| <= |s| && forall i :: 0 <= i < |text| ==> s[from + i] == text[i]
  }

  lemma ReadsFront(s: string, from: nat, text: string, c: char)
    requires Reads(s, from, text + [c])
    ensures Reads(s, from, text) && s[from + |text|] == c
  {
    assert (text + [c])[|text|] == c;
    assert forall i :: 0 <= i < |text| ==> (text + [c])[i] == text[i];
  }

  lemma {:induction false} NumberOfDecimal(s: string, from: nat, n: nat)
    requires Reads(s, from, Decimal(n))
    ensures DigitsIn(s, from, from + |Decimal(n)|) && NumberIn(s, from, from + |Decimal(n)|) == n
  {
    if n < 10 {
      ReadsFront(s, from, [], Digit(n));
      assert NumberIn(s, from, from) == 0;
    } else {
      ReadsFront(s, from, Decimal(n / 10), Digit(n % 10));
      NumberOfDecimal(s, from, n / 10);
    }
  }

  lemma {:induction false} NumberOfPad(s: string, from: nat, n: nat, width: nat)
    requires n < Pow10(width) && Reads(s, from, Pad(n, width))
    ensures DigitsIn(s, from, from + width) && NumberIn(s, from, from + width) == n
  {
    if width > 0 {
      ReadsFront(s, from, Pad(n / 10, width - 1), Digit(n % 10));
      NumberOfPad(s, from, n / 10, width - 1);
    }
  }

  // ------------------------------------------------------------------- slugs

  function Lower(c: char): char {
    if 'A' <= c <= 'Z' then (c as int + 32) as char else c
  }

  function AssetOf(c: char): string {
    if c == '/' || c == '-' then [] else [Lower(c)]
  }

  /** symbol.lower() without slashes and hyphens */
  function Asset(symbol: string): (s: string)
    ensures '-' !in s
  {
    if symbol == [] then [] else AssetOf(symbol[0]) + Asset(symbol[1..])
  }

  function Digits(d: Date, hour: nat, minute: nat): (s: string)
    requires ValidDate(d)
    ensures |s| == 12 && AllDigits(s)
  {
    Pad(d.year, 4) + Pad(d.month, 2) + Pad(d.day, 2) + Pad(hour, 2) + Pad(minute, 2)
  }

  /** strftime("%Y%m%d%H%M") of a minute count. */
  function Stamp(minute: nat): (s: string)
    ensures |s| == 12 && AllDigits(s)
  {
    Digits(DateOf(minute / DAY), minute % DAY / 60, minute % 60)
  }

  const TAG := "m-up-down-"

  function SlugTail(interval: nat, start: nat): string {
    Decimal(interval) + (TAG + Stamp(start))
  }

  function WindowSlug(symbol: string, interval: nat, start: nat): string {
    Asset(symbol) + ("-" + SlugTail(interval, start))
  }

  predicate IsLowerAlnum(c: char) { 'a' <= c <= 'z' || IsDigit(c) }

  /** Length of the longest prefix of letters and digits. */
  function AlnumPrefix(s: string): (n: nat)
    ensures n <= |s| && (forall i :: 0 <= i < n ==> IsLowerAlnum(s[i])) && (n < |s| ==> !IsLowerAlnum(s[n]))
  {
    if s != [] && IsLowerAlnum(s[0]) then 1 + AlnumPrefix(s[1..]) else 0
  }

  function DigitPrefix(s: string): (n: nat)
    ensures n <= |s| && (forall i :: 0 <= i < n ==> IsDigit(s[i])) && (n < |s| ==> !IsDigit(s[n]))
  {
    if s != [] && IsDigit(s[0]) then 1 + DigitPrefix(s[1..]) else 0
  }

  /** No match, a match whose time is not a time (an exception), or a window. */
  datatype Parsed = NotRolling | BadTime | Rolling(window: Window)

  /** strptime of twelve digits. */
  function ParseStamp(s: string): (r: Option<nat>)
    requires |s| == 12 && AllDigits(s)
  {
    var d := Date(NumberIn(s, 0, 4), NumberIn(s, 4, 6), NumberIn(s, 6, 8));
    var hour, minute := NumberIn(s, 8, 10), NumberIn(s, 10, 12);
    if ValidDate(d) && hour < 24 && minute < 60 then Some(DayNumber(d) * DAY + hour * 60 + minute) else None
  }

  /** `$` also matches before a final newline. */
  function WithoutNewline(s: string): string {
    if s != [] && s[|s| - 1] == '\n' then s[..|s| - 1] else s
  }

  function WindowFrom(digits: string, stamp: string): Parsed
    requires AllDigits(digits) && |stamp| == 12 && AllDigits(stamp)
  {
    match ParseStamp(stamp)
    case None => BadTime
    case Some(start) => Rolling(Window(start, start + NumberIn(digits, 0, |digits|)))
  }

  function ParseTail(digits: string, rest: string): Parsed
    requires AllDigits(digits)
  {
    if !(TAG <= rest) then NotRolling
    else
      var stamp := WithoutNewline(rest[|TAG|..]);
      if |stamp| != 12 || !AllDigits(stamp) then NotRolling else WindowFrom(digits, stamp)
  }

  /** The digits a text starts with, and the rest; none when it does not start with a digit. */
  function SplitInterval(s: string): (r: Option<(string, string)>)
    ensures r.Some? ==> AllDigits(r.value.0)
  {
    var n := DigitPrefix(s);
    if n == 0 then None else Some((s[..n], s[n..]))
  }

  function ParseInterval(s: string): Parsed {
    match SplitInterval(s)
    case None => NotRolling
    case Some(parts) => ParseTail(parts.0, parts.1)
  }

  /** What follows the letters and digits of the asset and a hyphen. */
  function AfterAsset(slug: string): Option<string> {
    var n := AlnumPrefix(slug);
    if n == 0 || n == |slug| || slug[n] != '-' then None else Some(slug[n + 1..])
  }

  function ParseRollingWindow(slug: string): Parsed {
    match AfterAsset(slug)
    case None => NotRolling
    case Some(rest) => ParseInterval(rest)
  }

  /** Four digits are enough for the year. */
  ghost predicate Printable(minute: nat) {
    DateOf(minute / DAY).year < 10000
  }

  lemma DigitFields(d: Date, hour: nat, minute: nat)
    requires ValidDate(d)
    ensures var s := Digits(d, hour, minute);
            && Reads(s, 0, Pad(d.year, 4)) && Reads(s, 4, Pad(d.month, 2)) && Reads(s, 6, Pad(d.day, 2))
            && Reads(s, 8, Pad(hour, 2)) && Reads(s, 10, Pad(minute, 2))
  {
  }

  lemma PowersOfTen()
    ensures Pow10(2) == 100 && Pow10(4) == 10000
  {
    assert Pow10(3) == 1000;
  }

  lemma MinuteParts(minute: nat)
    ensures minute / DAY * DAY + minute % DAY / 60 * 60 + minute % 60 == minute
    ensures minute % DAY / 60 < 24
  {
    var days, rest := minute / DAY, minute % DAY;
    assert minute == rest + (days * 24) * 60;
    Grid.FloorShift(rest, days * 24, 60);
    Grid.FloorBounds(rest, 60);
  }

  /** The digits of a date and time parse back to it. */
  lemma DigitsRoundTrip(d: Date, hour: nat, minute: nat)
    requires ValidDate(d) && d.year < 10000 && hour < 24 && minute < 60
    ensures ParseStamp(Digits(d, hour, minute)) == Some(DayNumber(d) * DAY + hour * 60 + minute)
  {
    var s := Digits(d, hour, minute);
    DigitFields(d, hour, minute);
    PowersOfTen();
    NumberOfPad(s, 0, d.year, 4);
    NumberOfPad(s, 4, d.month, 2);
    NumberOfPad(s, 6, d.day, 2);
    NumberOfPad(s, 8, hour, 2);
    NumberOfPad(s, 10, minute, 2);
  }

  lemma StampIs(s: string, minute: nat)
    requires |s| == 12 && AllDigits(s)
    requires ParseStamp(s) == Some(DayNumber(DateOf(minute / DAY)) * DAY + minute % DAY / 60 * 60 + minute % 60)
    ensures ParseStamp(s) == Some(minute)
  {
    DayNumberOfDate(minute / DAY);
    MinuteParts(minute);
  }

  lemma StampRoundTrip(minute: nat)
    requires Printable(minute)
    ensures ParseStamp(Stamp(minute)) == Some(minute)
  {
    MinuteParts(minute);
    DigitsRoundTrip(DateOf(minute / DAY), minute % DAY / 60, minute % 60);
    StampIs(Stamp(minute), minute);
  }

  lemma {:induction false} AlnumPrefixStops(a: string, rest: string)
    requires rest != [] && !IsLowerAlnum(rest[0])
    ensures AlnumPrefix(a + rest) == AlnumPrefix(a)
  {
    if a == [] {
      assert a + rest == rest;
    } else {
      AlnumPrefixStops(a[1..], rest);
      assert (a + rest)[1..] == a[1..] + rest;
    }
  }

  lemma {:induction false} DigitPrefixStops(a: string, rest: string)
    requires AllDigits(a) && rest != [] && !IsDigit(rest[0])
    ensures DigitPrefix(a + rest) == |a|
  {
    if a == [] {
      assert a + rest == rest;
    } else {
      DigitPrefixStops(a[1..], rest);
      assert (a + rest)[1..] == a[1..] + rest;
    }
  }

  /** A symbol whose asset the pattern of the parser accepts. */
  predicate Alphanumeric(symbol: string) {
    Asset(symbol) != [] && forall i :: 0 <= i < |Asset(symbol)| ==> IsLowerAlnum(Asset(symbol)[i])
  }

  lemma IntervalSplits(digits: string, rest: string)
    requires digits != [] && AllDigits(digits) && rest != [] && !IsDigit(rest[0])
    ensures SplitInterval(digits + rest) == Some((digits, rest))
  {
    DigitPrefixStops(digits, rest);
    assert (digits + rest)[..|digits|] == digits && (digits + rest)[|digits|..] == rest;
  }

  lemma TailParses(digits: string, stamp: string, start: nat, interval: nat)
    requires AllDigits(digits) && NumberIn(digits, 0, |digits|) == interval
    requires |stamp| == 12 && AllDigits(stamp) && ParseStamp(stamp) == Some(start)
    ensures ParseTail(digits, TAG + stamp) == Rolling(Window(start, start + interval))
  {
    assert (TAG + stamp)[|TAG|..] == stamp;
    assert IsDigit(stamp[11]) && WithoutNewline(stamp) == stamp;
  }

  lemma TailRoundTrip(interval: nat, start: nat)
    requires Printable(start)
    ensures ParseInterval(SlugTail(interval, start)) == Rolling(Window(start, start + interval))
  {
    IntervalSplits(Decimal(interval), TAG + Stamp(start));
    StampRoundTrip(start);
    NumberOfDecimal(Decimal(interval), 0, interval);
    TailParses(Decimal(interval), Stamp(start), start, interval);
  }

  lemma AssetSplits(a: string, tail: string)
    requires '-' !in a
    ensures AfterAsset(a + ("-" + tail))
            == if a != [] && (forall i :: 0 <= i < |a| ==> IsLowerAlnum(a[i])) then Some(tail) else None
  {
    var slug, n := a + ("-" + tail), AlnumPrefix(a);
    AlnumPrefixStops(a, "-" + tail);
    if n == |a| {
      assert slug[n] == '-' && slug[n + 1..] == tail;
    } else {
      assert slug[n] == a[n] && a[n] in a;
    }
  }

  /**
   Parsing a printed slug gives back exactly the window that was printed, for every symbol made of letters and
   digits (slashes and hyphens aside); the slug of any other symbol is not recognized.
   */
  lemma SlugRoundTrip(symbol: string, interval: nat, start: nat)
    requires Printable(start)
    ensures ParseRollingWindow(WindowSlug(symbol, interval, start))
            == if Alphanumeric(symbol) then Rolling(Window(start, start + interval)) else NotRolling
  {
    AssetSplits(Asset(symbol), SlugTail(interval, start));
    TailRoundTrip(interval, start);
  }

  lemma HyphenIsAfter(a: string, tail: string, b: string, rest: string)
    requires '-' !in b && a + ("-" + tail) == b + rest
    ensures |b| <= |a|
  {
    var s := b + rest;
    assert s[|a|] == (a + ("-" + tail))[|a|] == '-';
    assert forall k :: 0 <= k < |b| ==> s[k] == b[k] && b[k] in b;
  }

  /** The first hyphen separates the asset from the rest. */
  lemma HyphenSeparates(a: string, tail: string, b: string, tail': string)
    requires '-' !in a && '-' !in b && a + ("-" + tail) == b + ("-" + tail')
    ensures a == b && tail == tail'
  {
    var s, s' := a + ("-" + tail), b + ("-" + tail');
    HyphenIsAfter(a, tail, b, "-" + tail');
    HyphenIsAfter(b, tail', a, "-" + tail);
    assert s[..|a|] == a && s'[..|b|] == b;
    assert s[|a| + 1..] == tail && s'[|b| + 1..] == tail';
  }

  /** A slug determines asset, interval and start, whatever the symbols are. */
  lemma SlugsAreDistinct(symbol: string, interval: nat, start: nat, symbol': string, interval': nat, start': nat)
    requires Printable(start) && Printable(start')
    requires WindowSlug(symbol, interval, start) == WindowSlug(symbol', interval', start')
    ensures Asset(symbol) == Asset(symbol') && interval == interval' && start == start'
  {
    HyphenSeparates(Asset(symbol), SlugTail(interval, start), Asset(symbol'), SlugTail(interval', start'));
    TailRoundTrip(interval, start);
    TailRoundTrip(interval', start');
  }

  // ------------------------------------------------------- slugs as plain text

  lemma AssetOfFirst(c: char, rest: string)
    ensures Asset([c] + rest) == AssetOf(c) + Asset(rest)
  {
    assert ([c] + rest)[1..] == rest;
  }

  lemma FirstStays(a: string, c: char)
    requires a != []
    ensures a == [a[0]] + a[1..] && a + [c] == [a[0]] + (a[1..] + [c])
  {
  }

  lemma {:induction false} AssetAppends(a: string, c: char)
    ensures Asset(a + [c]) == Asset(a) + AssetOf(c)
  {
    if a == [] {
      AssetOfFirst(c, []);
      assert [c] + [] == a + [c];
    } else {
      AssetAppends(a[1..], c);
      FirstStays(a, c);
      AssetOfFirst(a[0], a[1..]);
      AssetOfFirst(a[0], a[1..] + [c]);
    }
  }

  /** The asset takes the symbol character by character: no slash, no hyphen, capitals as small letters. */
  lemma AssetGrows(symbol: string, c: char)
    ensures c == '/' || c == '-' ==> Asset(symbol + [c]) == Asset(symbol)
    ensures 'A' <= c <= 'Z'
            ==> Asset(symbol + [c]) == Asset(symbol) + ["abcdefghijklmnopqrstuvwxyz"[c as int - 'A' as int]]
    ensures c != '/' && c != '-' && !('A' <= c <= 'Z') ==> Asset(symbol + [c]) == Asset(symbol) + [c]
  {
    AssetAppends(symbol, c);
  }

  /** The number that the two characters at a place spell in base ten. */
  function TwoAt(s: string, i: nat): int
    requires i + 2 <= |s|
  {
    10 * (s[i] as int - 48) + (s[i + 1] as int - 48)
  }

  lemma NumberOfTwo(s: string, i: nat)
    requires i + 2 <= |s| && AllDigits(s)
    ensures NumberIn(s, i, i + 2) == TwoAt(s, i)
  {
    assert NumberIn(s, i, i + 1) == DigitValue(s[i]);
  }

  lemma NumberOfFour(s: string, i: nat)
    requires i + 4 <= |s| && AllDigits(s)
    ensures NumberIn(s, i, i + 4) == 100 * TwoAt(s, i) + TwoAt(s, i + 2)
  {
    NumberOfTwo(s, i);
    assert NumberIn(s, i, i + 3) == NumberIn(s, i, i + 2) * 10 + DigitValue(s[i + 2]);
  }

  lemma FieldsOfStamp(s: string)
    requires |s| == 12 && AllDigits(s)
    ensures NumberIn(s, 0, 4) == 100 * TwoAt(s, 0) + TwoAt(s, 2)
    ensures NumberIn(s, 4, 6) == TwoAt(s, 4) && NumberIn(s, 6, 8) == TwoAt(s, 6)
    ensures NumberIn(s, 8, 10) == TwoAt(s, 8) && NumberIn(s, 10, 12) == TwoAt(s, 10)
  {
    NumberOfFour(s, 0);
    forall i: nat | i <= 10 ensures NumberIn(s, i, i + 2) == TwoAt(s, i) { NumberOfTwo(s, i); }
  }

  /**
   The twelve digits are read as year, month, day, hour and minute of the start, and the others as the length of the
   window; a day or hour that does not exist is a bad time.
   */
  lemma WindowIsReadAs(digits: string, stamp: string)
    requires AllDigits(digits) && |stamp| == 12 && AllDigits(stamp)
    ensures var d := Date(100 * TwoAt(stamp, 0) + TwoAt(stamp, 2), TwoAt(stamp, 4), TwoAt(stamp, 6));
            var r := WindowFrom(digits, stamp);
            if ValidDate(d) && TwoAt(stamp, 8) <= 23 && TwoAt(stamp, 10) <= 59
            then r.Rolling? && r.window.start == DayNumber(d) * 1440 + TwoAt(stamp, 8) * 60 + TwoAt(stamp, 10)
                 && r.window.end - r.window.start == NumberIn(digits, 0, |digits|)
            else r == BadTime
  {
    FieldsOfStamp(stamp);
  }

  /** A text of the form asset-interval"m-up-down-"stamp, as the pattern of the parser describes it. */
  ghost predicate RollingText(slug: string, asset: string, digits: string, stamp: string, end: string) {
    && slug == asset + ("-" + (digits + ("m-up-down-" + (stamp + end))))
    && asset != [] && (forall i :: 0 <= i < |asset| ==> 'a' <= asset[i] <= 'z' || '0' <= asset[i] <= '9')
    && digits != [] && (forall i :: 0 <= i < |digits| ==> '0' <= digits[i] <= '9')
    && |stamp| == 12 && (forall i :: 0 <= i < 12 ==> '0' <= stamp[i] <= '9')
    && (end == [] || end == "\n")
  }

  lemma EndIsCut(stamp: string, end: string)
    requires |stamp| == 12 && AllDigits(stamp) && (end == [] || end == "\n")
    ensures WithoutNewline(stamp + end) == stamp
  {
    if end == [] {
      assert stamp + end == stamp;
      assert IsDigit(stamp[11]);
    } else {
      assert (stamp + end)[..12] == stamp;
    }
  }

  lemma TailTextParses(digits: string, stamp: string, end: string)
    requires AllDigits(digits) && |stamp| == 12 && AllDigits(stamp) && (end == [] || end == "\n")
    ensures ParseTail(digits, "m-up-down-" + (stamp + end)) == WindowFrom(digits, stamp)
  {
    assert ("m-up-down-" + (stamp + end))[|TAG|..] == stamp + end;
    EndIsCut(stamp, end);
  }

  lemma IntervalTextParses(digits: string, stamp: string, end: string)
    requires digits != [] && AllDigits(digits) && |stamp| == 12 && AllDigits(stamp) && (end == [] || end == "\n")
    ensures ParseInterval(digits + ("m-up-down-" + (stamp + end))) == WindowFrom(digits, stamp)
  {
    IntervalSplits(digits, "m-up-down-" + (stamp + end));
    TailTextParses(digits, stamp, end);
  }

  lemma AssetTextParses(asset: string, rest: string)
    requires asset != [] && forall i :: 0 <= i < |asset| ==> IsLowerAlnum(asset[i])
    ensures ParseRollingWindow(asset + ("-" + rest)) == ParseInterval(rest)
  {
    assert forall i :: 0 <= i < |asset| ==> asset[i] != '-';
    AssetSplits(asset, rest);
  }

  lemma TextParses(asset: string, digits: string, stamp: string, end: string)
    requires asset != [] && forall i :: 0 <= i < |asset| ==> IsLowerAlnum(asset[i])
    requires digits != [] && AllDigits(digits) && |stamp| == 12 && AllDigits(stamp) && (end == [] || end == "\n")
    ensures ParseRollingWindow(asset + ("-" + (digits + ("m-up-down-" + (stamp + end)))))
            == WindowFrom(digits, stamp)
  {
    AssetTextParses(asset, digits + ("m-up-down-" + (stamp + end)));
    IntervalTextParses(digits, stamp, end);
  }

  /** Every such text is a rolling market's slug, or names a time that does not exist. */
  lemma TextIsRolling(slug: string, asset: string, digits: string, stamp: string, end: string)
    requires RollingText(slug, asset, digits, stamp, end)
    ensures AllDigits(digits) && AllDigits(stamp) && ParseRollingWindow(slug) == WindowFrom(digits, stamp)
  {
    TextParses(asset, digits, stamp, end);
  }

  lemma TailIsText(digits: string, rest: string) returns (stamp: string, end: string)
    requires AllDigits(digits) && !ParseTail(digits, rest).NotRolling?
    ensures rest == "m-up-down-" + (stamp + end)
    ensures |stamp| == 12 && AllDigits(stamp) && (end == [] || end == "\n")
  {
    var text := rest[|TAG|..];
    stamp, end := WithoutNewline(text), text[|WithoutNewline(text)|..];
    assert text == stamp + end;
    assert rest == TAG + text;
  }

  lemma IntervalIsText(rest: string) returns (digits: string, stamp: string, end: string)
    requires !ParseInterval(rest).NotRolling?
    ensures rest == digits + ("m-up-down-" + (stamp + end)) && digits != [] && AllDigits(digits)
    ensures |stamp| == 12 && AllDigits(stamp) && (end == [] || end == "\n")
  {
    var n := DigitPrefix(rest);
    digits := rest[..n];
    stamp, end := TailIsText(digits, rest[n..]);
    assert rest == digits + rest[n..];
  }

  lemma AssetIsText(slug: string, rest: string) returns (asset: string)
    requires AfterAsset(slug) == Some(rest)
    ensures slug == asset + ("-" + rest)
    ensures asset != [] && forall i :: 0 <= i < |asset| ==> IsLowerAlnum(asset[i])
  {
    var n := AlnumPrefix(slug);
    asset := slug[..n];
    assert slug == asset + ("-" + slug[n + 1..]);
  }

  lemma RollingIsText(slug: string) returns (asset: string, digits: string, stamp: string, end: string)
    requires !ParseRollingWindow(slug).NotRolling?
    ensures RollingText(slug, asset, digits, stamp, end)
  {
    var rest := AfterAsset(slug).value;
    asset := AssetIsText(slug, rest);
    digits, stamp, end := IntervalIsText(rest);
  }

  /** The parser recognizes exactly the texts of that form. */
  lemma ParsesExactly(slug: string)
    ensures !ParseRollingWindow(slug).NotRolling?
            <==> exists asset, digits, stamp, end :: RollingText(slug, asset, digits, stamp, end)
  {
    if !ParseRollingWindow(slug).NotRolling? {
      var asset, digits, stamp, end := RollingIsText(slug);
    } else if asset, digits, stamp, end :| RollingText(slug, asset, digits, stamp, end) {
      TextIsRolling(slug, asset, digits, stamp, end);
      assert false;
    }
  }
}
