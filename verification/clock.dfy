/**
 * The `m:ss` clock text the player shows for its position and its duration
 * (`formatTime` in components/AudioScroller.tsx), together with `padStart`,
 * which it uses for the seconds, and `ParseClock`, the reading of such a text
 * back into whole seconds.
 */
module Clock {
  import opened Wrappers
  import opened Decimal

  /** A time in seconds; the media element never reports a negative one. */
  type Seconds = r: real | r >= 0.0

  /** `String.prototype.padStart(width, fill)` for a one-character fill. */
  function PadStart(s: string, width: nat, fill: char): (r: string)
    ensures |r| == if |s| >= width then |s| else width
    ensures r[|r| - |s|..] == s
    ensures forall i :: 0 <= i < |r| - |s| ==> r[i] == fill
  {
    if |s| >= width then s else seq(width - |s|, _ => fill) + s
  }

  /** Whole minutes in `t`: `Math.floor(t / 60)`. */
  function Minutes(t: Seconds): (m: nat)
    ensures 60 * m <= t.Floor < 60 * m + 60
  {
    (t / 60.0).Floor
  }

  /**
   * Leftover whole seconds: `Math.floor(t % 60)`. For a non-negative `t`,
   * JavaScript's truncating `%` is `t - 60 * Math.floor(t / 60)`.
   */
  function SecondsPart(t: Seconds): (s: nat)
    ensures s < 60
    ensures 60 * Minutes(t) + s == t.Floor
  {
    var k := (t - 60.0 * Minutes(t) as real).Floor;
    assert (60 * Minutes(t) + k) as real <= t < (60 * Minutes(t) + k + 1) as real;
    k
  }

  /** The index of the colon in a clock text of length `n`. */
  function ColonAt(n: nat): int { n - 3 }

  /**
   * Reads a clock text back: a decimal minute count, a colon, and exactly two
   * digits worth less than 60. Anything else is `None`.
   */
  function ParseClock(c: string): Option<nat> {
    if |c| >= 4 && c[ColonAt(|c|)] == ':' && AllDigits(c[..ColonAt(|c|)]) && AllDigits(c[ColonAt(|c|) + 1..])
       && Value(c[ColonAt(|c|) + 1..]) < 60
    then Some(60 * Value(c[..ColonAt(|c|)]) + Value(c[ColonAt(|c|) + 1..]))
    else None
  }

  /** The texts `FormatTime` can produce: canonical minutes, a colon, two digits below 60. */
  predicate CanonicalClock(c: string) {
    && ParseClock(c).Some?
    && Canonical(c[..ColonAt(|c|)])
  }

  /** A canonical clock text starts with a digit. */
  lemma ClockStartsWithDigit(c: string)
    requires CanonicalClock(c)
    ensures IsDigit(c[0])
  {
    assert c[0] == c[..ColonAt(|c|)][0];
  }

  /** A minute field and a two-character seconds field around a colon. */
  function Join(mm: string, ss: string): string {
    mm + ":" + ss
  }

  lemma JoinFields(mm: string, ss: string)
    requires |ss| == 2
    ensures var c := Join(mm, ss);
      |c| >= 3 && c[..ColonAt(|c|)] == mm && c[ColonAt(|c|)] == ':' && c[ColonAt(|c|) + 1..] == ss
  {
  }

  /** Reading a joined text gives back the seconds its two fields denote. */
  lemma ParseJoin(mm: string, ss: string)
    requires |mm| > 0 && AllDigits(mm)
    requires |ss| == 2 && AllDigits(ss) && Value(ss) < 60
    ensures ParseClock(Join(mm, ss)) == Some(60 * Value(mm) + Value(ss))
  {
    JoinFields(mm, ss);
  }

  /** A clock text splits uniquely into its fields. */
  lemma SplitFields(c: string)
    requires |c| >= 3
    ensures c == Join(c[..ColonAt(|c|)], c[ColonAt(|c|) + 1..]) || c[ColonAt(|c|)] != ':'
  {
  }

  /**
   * `formatTime(t)`: minutes, a colon, and the seconds padded with '0' to two
   * characters. The result reads back as the whole seconds of `t`, its minute
   * field is the floor of `t / 60`, and (by `CanonicalClock`) its seconds field
   * is two digits below 60.
   */
  function FormatTime(t: Seconds): (r: string)
    ensures CanonicalClock(r)
    ensures ParseClock(r) == Some(t.Floor)
    ensures Value(r[..ColonAt(|r|)]) == (t / 60.0).Floor
  {
    var m := Minutes(t);
    var k := SecondsPart(t);
    assert m == (t / 60.0).Floor && 60 * m + k == t.Floor;
    MinutesSeconds(m, k)
  }

  /** `${minutes}:${seconds.toString().padStart(2, '0')}` for whole minutes and seconds. */
  function MinutesSeconds(m: nat, k: nat): (r: string)
    requires k < 60
    ensures CanonicalClock(r)
    ensures ParseClock(r) == Some(60 * m + k)
    ensures |r| >= 4 && IsDigit(r[0])
    ensures Value(r[..ColonAt(|r|)]) == m && Value(r[ColonAt(|r|) + 1..]) == k
  {
    var mm := Show(m);
    var ss := PadStart(Show(k), 2, '0');
    PaddedSeconds(k);
    ClockFields(mm, ss, m, k);
    Join(mm, ss)
  }

  /**
   * A canonical minute field worth `m` and two digits worth `k < 60` make a
   * canonical clock text worth `60 * m + k`.
   */
  lemma ClockFields(mm: string, ss: string, m: nat, k: nat)
    requires Canonical(mm) && Value(mm) == m
    requires |ss| == 2 && AllDigits(ss) && Value(ss) == k && k < 60
    ensures var r := Join(mm, ss);
      && CanonicalClock(r)
      && ParseClock(r) == Some(60 * m + k)
      && |r| >= 4 && IsDigit(r[0])
      && Value(r[..ColonAt(|r|)]) == m
      && Value(r[ColonAt(|r|) + 1..]) == k
  {
    var r := Join(mm, ss);
    JoinFields(mm, ss);
    ParseJoin(mm, ss);
    assert r[0] == mm[0];
  }

  /** `padStart(2, '0')` of a number below 60 is two digits denoting that number. */
  lemma PaddedSeconds(n: nat)
    requires n < 60
    ensures var ss := PadStart(Show(n), 2, '0'); |ss| == 2 && AllDigits(ss) && Value(ss) == n
  {
  }

  /**
   * The converse of the read-back: every canonical clock text is exactly what
   * `FormatTime` prints for the seconds it denotes.
   */
  lemma FormatParsed(c: string)
    requires CanonicalClock(c)
    ensures FormatTime(ParseClock(c).value as real) == c
  {
    var t: Seconds := ParseClock(c).value as real;
    var mm := c[..ColonAt(|c|)];
    var ss := c[ColonAt(|c|) + 1..];
    assert t.Floor == 60 * Value(mm) + Value(ss);
    assert Minutes(t) == Value(mm);
    assert SecondsPart(t) == Value(ss);
    ShowValue(mm);
    TwoDigitsPadded(ss);
    SplitFields(c);
  }

  /** Two digits worth less than 60 are the padded rendering of their value. */
  lemma TwoDigitsPadded(ss: string)
    requires |ss| == 2 && AllDigits(ss) && Value(ss) < 60
    ensures PadStart(Show(Value(ss)), 2, '0') == ss
  {
    assert ss[..1] == [ss[0]];
    if ss[0] == '0' {
      assert Show(Value(ss)) == [ss[1]];
    } else {
      ShowValue(ss);
    }
  }

  /** Only the whole seconds of `t` matter to its display. */
  lemma FormatTimeFloor(t: Seconds)
    ensures FormatTime(t) == FormatTime(t.Floor as real)
  {
    FormatParsed(FormatTime(t));
  }

  /** "2:05" is a canonical clock text for 125 seconds. */
  lemma ParseExample()
    ensures ParseClock("2:05") == Some(125) && CanonicalClock("2:05")
  {
    var c := "2:05";
    assert c[..ColonAt(|c|)] == "2" && c[ColonAt(|c|) + 1..] == "05";
    assert "05"[..1] == "0";
    assert Value("2") == 2 && Value("05") == 5;
  }

  /** Any time from 125 s up to (not including) 126 s, such as 125.4 s, shows as "2:05". */
  lemma FormatExample(t: Seconds)
    requires 125.0 <= t < 126.0
    ensures FormatTime(t) == "2:05"
  {
    ParseExample();
    FormatParsed("2:05");
    assert t.Floor == 125;
    FormatTimeFloor(t);
  }
}
