/**
 * Text helpers: decimal rendering, the H:MM:SS clock of `formatTimeSecs`,
 * the track label of `getTrackString` and the 100-character label cap.
 */
module Format {
  import opened Wrappers

  predicate IsDigit(c: char) { '0' <= c <= '9' }

  predicate IsDigits(s: string) { forall i :: 0 <= i < |s| ==> IsDigit(s[i]) }

  /** Value of a string of decimal digits (the empty string reads as 0). */
  function DigitsValue(s: string): nat
    requires IsDigits(s)
  {
    if s == [] then 0 else DigitsValue(s[..|s| - 1]) * 10 + (s[|s| - 1] as int - '0' as int)
  }

  function DigitChar(d: nat): (c: char)
    requires d < 10
    ensures IsDigit(c) && c as int - '0' as int == d
  {
    ('0' as int + d) as char
  }

  /** Decimal rendering of a natural number, as Python's `str`. */
  function NatToString(n: nat): (s: string)
    ensures |s| >= 1 && IsDigits(s)
    ensures DigitsValue(s) == n
    ensures s[0] == '0' ==> n == 0
    ensures n < 10 ==> |s| == 1
    ensures 10 <= n < 100 ==> |s| == 2
    decreases n
  {
    if n < 10 then [DigitChar(n)]
    else
      var init := NatToString(n / 10);
      var s := init + [DigitChar(n % 10)];
      assert s[..|s| - 1] == init;
      s
  }

  lemma {:induction false} DigitsValueZeroPrefix(s: string)
    requires IsDigits(s)
    ensures IsDigits("0" + s) && DigitsValue("0" + s) == DigitsValue(s)
  {
    var t := "0" + s;
    if s != [] {
      assert t[..|t| - 1] == "0" + s[..|s| - 1];
      DigitsValueZeroPrefix(s[..|s| - 1]);
    } else {
      assert t[..|t| - 1] == [];
    }
  }

  /** `f'{n:02d}'`: at least two digits, zero-padded on the left. */
  function Pad2(n: nat): (s: string)
    ensures |s| >= 2 && IsDigits(s) && DigitsValue(s) == n
    ensures n < 100 ==> s == [DigitChar(n / 10), DigitChar(n % 10)]
  {
    if n < 10 then
      var d := NatToString(n);
      DigitsValueZeroPrefix(d);
      "0" + d
    else NatToString(n)
  }

  /** Hours, minutes and seconds of a duration, as `formatTimeSecs` splits it. */
  function SplitSecs(secs: nat): (hms: (nat, nat, nat))
    ensures hms.0 * 3600 + hms.1 * 60 + hms.2 == secs
    ensures hms.1 < 60 && hms.2 < 60
  {
    var mins := secs / 60;
    assert mins / 60 == secs / 3600 by {
      assert secs == mins * 60 + secs % 60;
      assert mins == (mins / 60) * 60 + mins % 60;
      assert secs == (mins / 60) * 3600 + (mins % 60) * 60 + secs % 60;
    }
    (secs / 3600, mins % 60, secs % 60)
  }

  /** Text made only of digits and colons. */
  predicate IsClockChars(s: string) { forall i :: 0 <= i < |s| ==> IsDigit(s[i]) || s[i] == ':' }

  lemma ClockCharsJoin(x: string, y: string)
    requires IsClockChars(x) && IsClockChars(y)
    ensures IsClockChars(x + ":" + y)
  {
    var t := x + ":" + y;
    assert forall i :: |x| < i < |t| ==> t[i] == y[i - |x| - 1];
  }

  /** `formatTimeSecs`: `H:MM:SS` when there are hours or they are forced, `MM:SS` otherwise. */
  function FormatTimeSecs(secs: nat, forceHours: bool): (r: string)
    ensures |r| >= 5
    ensures |r| > 5 <==> secs >= 3600 || forceHours
    ensures IsClockChars(r)
  {
    var (h, m, s) := SplitSecs(secs);
    var ms := Pad2(m) + ":" + Pad2(s);
    ClockCharsJoin(Pad2(m), Pad2(s));
    if h != 0 || forceHours then
      ClockCharsJoin(NatToString(h), ms);
      assert NatToString(h) + ":" + ms == NatToString(h) + ":" + Pad2(m) + ":" + Pad2(s);
      NatToString(h) + ":" + Pad2(m) + ":" + Pad2(s)
    else ms
  }

  function DigitValue(c: char): int { c as int - '0' as int }

  /** The first digit of a minutes or seconds field: 0 to 5. */
  predicate IsTensDigit(c: char) { '0' <= c <= '5' }

  /**
   * Reads back a clock written as `MM:SS` or `H:MM:SS`: minutes and seconds
   * below 60, and hours without a leading zero unless they are just `0`.
   */
  function ParseClock(r: string): Option<nat>
  {
    var n := |r|;
    if n < 5 then None
    else if !(IsTensDigit(r[n - 5]) && IsDigit(r[n - 4]) && r[n - 3] == ':' && IsTensDigit(r[n - 2]) && IsDigit(r[n - 1])) then None
    else
      var ms := (DigitValue(r[n - 5]) * 10 + DigitValue(r[n - 4])) * 60 + DigitValue(r[n - 2]) * 10 + DigitValue(r[n - 1]);
      if n == 5 then Some(ms)
      else if n >= 7 && r[n - 6] == ':' && (n == 7 || r[0] != '0') then
        match ReadNat(r[..n - 6])
        case Some(h) => Some(h * 3600 + ms)
        case None => None
      else None
  }

  /** Reads a non-empty string of decimal digits. */
  function ReadNat(t: string): Option<nat>
  {
    if t == [] || !IsDigit(t[|t| - 1]) then None
    else if |t| == 1 then Some(DigitValue(t[0]))
    else match ReadNat(t[..|t| - 1])
      case Some(v) => Some(v * 10 + DigitValue(t[|t| - 1]))
      case None => None
  }

  lemma {:induction false} ReadNatDigits(t: string)
    requires |t| >= 1 && IsDigits(t)
    ensures ReadNat(t) == Some(DigitsValue(t))
  {
    if |t| > 1 {
      ReadNatDigits(t[..|t| - 1]);
    } else {
      assert t[..0] == [];
    }
  }

  /** An `MM:SS` text reads back as its minutes and seconds. */
  lemma ParseShortClock(a: char, b: char, c: char, d: char)
    requires IsTensDigit(a) && IsDigit(b) && IsTensDigit(c) && IsDigit(d)
    ensures ParseClock([a, b] + ":" + [c, d])
            == Some((DigitValue(a) * 10 + DigitValue(b)) * 60 + DigitValue(c) * 10 + DigitValue(d))
  {
  }

  /** A text whose last six characters are `:MM:SS` and whose head is a canonical hours field reads back. */
  lemma ParseClockLong(r: string, hours: nat)
    requires |r| >= 7 && r[|r| - 6] == ':' && r[|r| - 3] == ':'
    requires IsTensDigit(r[|r| - 5]) && IsDigit(r[|r| - 4]) && IsTensDigit(r[|r| - 2]) && IsDigit(r[|r| - 1])
    requires |r| == 7 || r[0] != '0'
    requires ReadNat(r[..|r| - 6]) == Some(hours)
    ensures ParseClock(r) == Some(hours * 3600 + (DigitValue(r[|r| - 5]) * 10 + DigitValue(r[|r| - 4])) * 60
                                  + DigitValue(r[|r| - 2]) * 10 + DigitValue(r[|r| - 1]))
  {
  }

  /** The positions of an `H:MM:SS` text built from its fields. */
  lemma LongClockParts(hh: string, a: char, b: char, c: char, d: char)
    requires hh != []
    ensures var r := hh + ":" + [a, b] + ":" + [c, d];
            && |r| == |hh| + 6 && r[..|r| - 6] == hh && r[0] == hh[0]
            && r[|r| - 6] == ':' && r[|r| - 5] == a && r[|r| - 4] == b
            && r[|r| - 3] == ':' && r[|r| - 2] == c && r[|r| - 1] == d
  {
    var r := hh + ":" + [a, b] + ":" + [c, d];
    assert r == hh + [':', a, b, ':', c, d];
  }

  /** An `H:MM:SS` text reads back as its hours, minutes and seconds. */
  lemma ParseLongClock(hh: string, hours: nat, a: char, b: char, c: char, d: char)
    requires ReadNat(hh) == Some(hours) && (|hh| == 1 || hh[0] != '0')
    requires IsTensDigit(a) && IsDigit(b) && IsTensDigit(c) && IsDigit(d)
    ensures ParseClock(hh + ":" + [a, b] + ":" + [c, d])
            == Some(hours * 3600 + (DigitValue(a) * 10 + DigitValue(b)) * 60 + DigitValue(c) * 10 + DigitValue(d))
  {
    var r := hh + ":" + [a, b] + ":" + [c, d];
    assert hh != [];
    LongClockParts(hh, a, b, c, d);
    ParseClockLong(r, hours);
  }

  /** The clock text loses nothing: it reads back as the number of seconds it was made from. */
  lemma FormatTimeRoundTrip(secs: nat, forceHours: bool)
    ensures ParseClock(FormatTimeSecs(secs, forceHours)) == Some(secs)
  {
    var hms := SplitSecs(secs);
    var (h, m, s) := hms;
    var mm, ss := Pad2(m), Pad2(s);
    assert mm == [DigitChar(m / 10), DigitChar(m % 10)];
    assert ss == [DigitChar(s / 10), DigitChar(s % 10)];
    if h != 0 || forceHours {
      ReadNatDigits(NatToString(h));
      ParseLongClock(NatToString(h), h, DigitChar(m / 10), DigitChar(m % 10), DigitChar(s / 10), DigitChar(s % 10));
    } else {
      ParseShortClock(DigitChar(m / 10), DigitChar(m % 10), DigitChar(s / 10), DigitChar(s % 10));
    }
  }

  lemma DigitCharValue(c: char)
    requires IsDigit(c)
    ensures 0 <= DigitValue(c) < 10 && DigitChar(DigitValue(c)) == c
  {
  }

  lemma DivMod10(w: nat, d: int)
    requires 0 <= d < 10
    ensures (w * 10 + d) / 10 == w && (w * 10 + d) % 10 == d
  {
  }

  /** Appending a digit to the rendering of `w >= 1` renders `w * 10 + d`. */
  lemma NatToStringAppend(w: nat, d: nat)
    requires w >= 1 && d < 10
    ensures NatToString(w * 10 + d) == NatToString(w) + [DigitChar(d)]
  {
    DivMod10(w, d);
  }

  /** A successful read of two or more digits is the read of all but the last, times ten, plus the last. */
  lemma ReadNatStep(t: string, v: nat)
    requires |t| > 1 && ReadNat(t) == Some(v)
    ensures IsDigit(t[|t| - 1]) && ReadNat(t[..|t| - 1]).Some?
    ensures v == ReadNat(t[..|t| - 1]).value * 10 + DigitValue(t[|t| - 1])
  {
  }

  /** Two or more digits without a leading zero read as at least ten. */
  lemma {:induction false} ReadNatAtLeastTen(t: string, v: nat)
    requires |t| > 1 && t[0] != '0' && ReadNat(t) == Some(v)
    ensures v >= 10
  {
    var init := t[..|t| - 1];
    ReadNatStep(t, v);
    var w := ReadNat(init).value;
    if |init| == 1 {
      assert w == DigitValue(init[0]) && init[0] == t[0];
      DigitCharValue(init[0]);
    } else {
      ReadNatAtLeastTen(init, w);
    }
  }

  /** One digit is the rendering of its value. */
  lemma ReadNatSingle(t: string, v: nat)
    requires |t| == 1 && ReadNat(t) == Some(v)
    ensures t == NatToString(v)
  {
    DigitCharValue(t[0]);
  }

  /** Appending a digit to the rendering of `w >= 1` renders the extended number. */
  lemma AppendDigit(init: string, w: nat, last: char)
    requires w >= 1 && init == NatToString(w) && IsDigit(last)
    ensures init + [last] == NatToString(w * 10 + DigitValue(last))
  {
    DigitCharValue(last);
    NatToStringAppend(w, DigitValue(last));
  }

  /** A digit string without a leading zero (other than `0` itself) is the rendering of its value. */
  lemma {:induction false} ReadNatCanonical(t: string, v: nat)
    requires ReadNat(t) == Some(v) && (|t| == 1 || t[0] != '0')
    ensures t == NatToString(v)
  {
    if |t| == 1 {
      ReadNatSingle(t, v);
    } else {
      var init, last := t[..|t| - 1], t[|t| - 1];
      ReadNatStep(t, v);
      var w := ReadNat(init).value;
      assert init[0] == t[0];
      ReadNatCanonical(init, w);
      if |init| == 1 {
        DigitCharValue(init[0]);
      } else {
        ReadNatAtLeastTen(init, w);
      }
      AppendDigit(init, w, last);
      assert t == init + [last];
    }
  }

  /** Hours, minutes and seconds with minutes and seconds below 60 are the split of their total. */
  lemma SplitSecsUnique(secs: nat, h: nat, m: nat, s: nat)
    requires h * 3600 + m * 60 + s == secs && m < 60 && s < 60
    ensures SplitSecs(secs) == (h, m, s)
  {
    assert secs == (h * 60 + m) * 60 + s;
    assert secs / 60 == h * 60 + m && secs % 60 == s;
    assert (h * 60 + m) / 60 == h && (h * 60 + m) % 60 == m;
  }

  /** A field of two digits with the first at most 5 is the zero-padded rendering of its value. */
  lemma Pad2Field(a: char, b: char)
    requires IsTensDigit(a) && IsDigit(b)
    ensures DigitValue(a) * 10 + DigitValue(b) < 60
    ensures Pad2(DigitValue(a) * 10 + DigitValue(b)) == [a, b]
  {
    DigitCharValue(a);
    DigitCharValue(b);
    var v := DigitValue(a) * 10 + DigitValue(b);
    assert v / 10 == DigitValue(a) && v % 10 == DigitValue(b);
  }

  /** The `MM:SS` rendering of minutes and seconds read from two canonical fields. */
  lemma ShortClockText(secs: nat, a: char, b: char, c: char, d: char)
    requires IsTensDigit(a) && IsDigit(b) && IsTensDigit(c) && IsDigit(d)
    requires secs == (DigitValue(a) * 10 + DigitValue(b)) * 60 + DigitValue(c) * 10 + DigitValue(d)
    ensures FormatTimeSecs(secs, false) == [a, b] + ":" + [c, d]
  {
    Pad2Field(a, b);
    Pad2Field(c, d);
    SplitSecsUnique(secs, 0, DigitValue(a) * 10 + DigitValue(b), DigitValue(c) * 10 + DigitValue(d));
  }

  /** The `H:MM:SS` rendering of hours, minutes and seconds read from canonical fields. */
  lemma LongClockText(secs: nat, h: nat, a: char, b: char, c: char, d: char, forceHours: bool)
    requires IsTensDigit(a) && IsDigit(b) && IsTensDigit(c) && IsDigit(d)
    requires secs == h * 3600 + (DigitValue(a) * 10 + DigitValue(b)) * 60 + DigitValue(c) * 10 + DigitValue(d)
    requires h != 0 || forceHours
    ensures FormatTimeSecs(secs, forceHours) == NatToString(h) + ":" + [a, b] + ":" + [c, d]
  {
    Pad2Field(a, b);
    Pad2Field(c, d);
    SplitSecsUnique(secs, h, DigitValue(a) * 10 + DigitValue(b), DigitValue(c) * 10 + DigitValue(d));
  }

  /** What a successful read of a clock text establishes about its fields. */
  lemma ParseClockFields(r: string, secs: nat)
    requires ParseClock(r) == Some(secs)
    ensures |r| >= 5 && r[|r| - 3] == ':'
    ensures IsTensDigit(r[|r| - 5]) && IsDigit(r[|r| - 4]) && IsTensDigit(r[|r| - 2]) && IsDigit(r[|r| - 1])
    ensures var ms := (DigitValue(r[|r| - 5]) * 10 + DigitValue(r[|r| - 4])) * 60 + DigitValue(r[|r| - 2]) * 10 + DigitValue(r[|r| - 1]);
            && (|r| == 5 ==> secs == ms)
            && (|r| != 5 ==> && |r| >= 7 && r[|r| - 6] == ':' && (|r| == 7 || r[0] != '0')
                             && ReadNat(r[..|r| - 6]).Some?
                             && secs == ReadNat(r[..|r| - 6]).value * 3600 + ms)
  {
  }

  /** A text with colons in the two clock positions is its hours field, then `:MM:SS`. */
  lemma LongClockSplit(r: string)
    requires |r| >= 7 && r[|r| - 6] == ':' && r[|r| - 3] == ':'
    ensures r == r[..|r| - 6] + ":" + [r[|r| - 5], r[|r| - 4]] + ":" + [r[|r| - 2], r[|r| - 1]]
  {
    var n := |r|;
    assert r == r[..n - 6] + r[n - 6..];
    assert r[n - 6..] == [':', r[n - 5], r[n - 4], ':', r[n - 2], r[n - 1]];
  }

  /** A canonical `MM:SS` text is the rendering of its value. */
  lemma ShortClockUnique(r: string, secs: nat)
    requires |r| == 5 && r[2] == ':'
    requires IsTensDigit(r[0]) && IsDigit(r[1]) && IsTensDigit(r[3]) && IsDigit(r[4])
    requires secs == (DigitValue(r[0]) * 10 + DigitValue(r[1])) * 60 + DigitValue(r[3]) * 10 + DigitValue(r[4])
    ensures r == FormatTimeSecs(secs, false)
  {
    assert r == [r[0], r[1]] + ":" + [r[3], r[4]];
    ShortClockText(secs, r[0], r[1], r[3], r[4]);
  }

  /** A canonical `H:MM:SS` text is the rendering of its value. */
  lemma LongClockUnique(r: string, secs: nat, h: nat, forceHours: bool)
    requires |r| >= 7 && r[|r| - 6] == ':' && r[|r| - 3] == ':'
    requires IsTensDigit(r[|r| - 5]) && IsDigit(r[|r| - 4]) && IsTensDigit(r[|r| - 2]) && IsDigit(r[|r| - 1])
    requires (|r| == 7 || r[0] != '0') && ReadNat(r[..|r| - 6]) == Some(h)
    requires secs == h * 3600 + (DigitValue(r[|r| - 5]) * 10 + DigitValue(r[|r| - 4])) * 60
                     + DigitValue(r[|r| - 2]) * 10 + DigitValue(r[|r| - 1])
    requires h != 0 || forceHours
    ensures r == FormatTimeSecs(secs, forceHours)
  {
    var n := |r|;
    var hh := r[..n - 6];
    assert |hh| == 1 || hh[0] == r[0];
    ReadNatCanonical(hh, h);
    LongClockText(secs, h, r[n - 5], r[n - 4], r[n - 2], r[n - 1], forceHours);
    LongClockSplit(r);
  }

  /**
   * The clock text is canonical: a text that reads back as `secs`, with an
   * hours field exactly when `formatTimeSecs` would print one, is that text.
   */
  lemma ClockTextUnique(r: string, secs: nat, forceHours: bool)
    requires ParseClock(r) == Some(secs)
    requires |r| > 5 <==> secs >= 3600 || forceHours
    ensures r == FormatTimeSecs(secs, forceHours)
  {
    ParseClockFields(r, secs);
    var n := |r|;
    Pad2Field(r[n - 5], r[n - 4]);
    Pad2Field(r[n - 2], r[n - 1]);
    if n == 5 {
      ShortClockUnique(r, secs);
    } else {
      LongClockUnique(r, secs, ReadNat(r[..n - 6]).value, forceHours);
    }
  }

  /** `','.join(xs)`. */
  function JoinComma(xs: seq<string>): (r: string)
    ensures |xs| == 1 ==> r == xs[0]
    ensures xs == [] ==> r == ""
  {
    if xs == [] then ""
    else if |xs| == 1 then xs[0]
    else xs[0] + "," + JoinComma(xs[1..])
  }

  predicate NoComma(s: string) { forall i :: 0 <= i < |s| ==> s[i] != ',' }

  /** `s.split(',')`: the pieces between commas, in order. */
  function SplitComma(s: string): (pieces: seq<string>)
    ensures |pieces| >= 1
  {
    if s == [] then [""]
    else if s[0] == ',' then [""] + SplitComma(s[1..])
    else
      var rest := SplitComma(s[1..]);
      [[s[0]] + rest[0]] + rest[1..]
  }

  lemma {:induction false} SplitCommaPrefix(a: string, b: string)
    requires NoComma(a)
    ensures SplitComma(a + "," + b) == [a] + SplitComma(b)
  {
    if a == [] {
      assert a + "," + b == [','] + b;
      assert ([','] + b)[1..] == b;
    } else {
      assert (a + "," + b)[1..] == a[1..] + "," + b;
      SplitCommaPrefix(a[1..], b);
      assert [a[0]] + a[1..] == a;
    }
  }

  lemma {:induction false} SplitCommaNone(a: string)
    requires NoComma(a)
    ensures SplitComma(a) == [a]
  {
    if a != [] {
      SplitCommaNone(a[1..]);
      assert [a[0]] + a[1..] == a;
    }
  }

  /** Joined artist names split back into the same names, as long as no name holds a comma. */
  lemma {:induction false} JoinCommaRoundTrip(xs: seq<string>)
    requires xs != []
    requires forall i :: 0 <= i < |xs| ==> NoComma(xs[i])
    ensures SplitComma(JoinComma(xs)) == xs
  {
    if |xs| == 1 {
      SplitCommaNone(xs[0]);
    } else {
      JoinCommaRoundTrip(xs[1..]);
      SplitCommaPrefix(xs[0], JoinComma(xs[1..]));
      assert [xs[0]] + xs[1..] == xs;
    }
  }

  /** The leading tag `getTrackString` adds when asked to show the item type. */
  function TypePrefix(showType: bool, isAlbum: bool): string
  {
    if !showType then "" else if isAlbum then "Album: " else "Track: "
  }

  function ArtistPart(artists: seq<string>, artistLimit: int): string
  {
    if |artists| > artistLimit then "Various Artists"
    else if artists != [] then JoinComma(artists)
    else ""
  }

  /**
   * `getTrackString`: optional type tag, then the artists (or "Various Artists"
   * beyond the limit), then " - " only when there are artists, then the name.
   */
  function TrackString(artists: seq<string>, name: string, artistLimit: int, showType: bool, isAlbum: bool): (r: string)
    ensures |TypePrefix(showType, isAlbum)| + |name| <= |r|
    ensures r[..|TypePrefix(showType, isAlbum)|] == TypePrefix(showType, isAlbum)
    ensures r[|r| - |name|..] == name
    ensures artists == [] && artistLimit >= 0 ==> r == TypePrefix(showType, isAlbum) + name
    ensures artists == [] && artistLimit < 0 ==> r == TypePrefix(showType, isAlbum) + "Various Artists" + name
    ensures 0 < |artists| <= artistLimit ==> r == TypePrefix(showType, isAlbum) + JoinComma(artists) + " - " + name
    ensures artists != [] && |artists| > artistLimit ==> r == TypePrefix(showType, isAlbum) + "Various Artists - " + name
  {
    var res := TypePrefix(showType, isAlbum);
    var res := res + ArtistPart(artists, artistLimit);
    var res := if artists != [] then res + " - " else res;
    res + name
  }

  /** Position of the first `c` in `s`, or `|s|` when there is none (`str.find` with the miss mapped to the length). */
  function FirstIndex(s: string, c: char): (i: nat)
    ensures i <= |s|
    ensures i < |s| ==> s[i] == c
    ensures forall j :: 0 <= j < i ==> s[j] != c
  {
    if s == [] || s[0] == c then 0 else 1 + FirstIndex(s[1..], c)
  }

  /** The first `c` of `p + rest` is the head of `rest` when `p` holds none. */
  lemma FirstIndexAfter(p: string, c: char, rest: string)
    requires forall j :: 0 <= j < |p| ==> p[j] != c
    requires rest != [] && rest[0] == c
    ensures FirstIndex(p + rest, c) == |p|
  {
    assert (p + rest)[|p|] == c;
  }

  /** The separator `" - "` starts at position `i` of `s`. */
  predicate SepAt(s: string, i: nat) { i + 3 <= |s| && s[i] == ' ' && s[i + 1] == '-' && s[i + 2] == ' ' }

  /** `s` holds no `" - "`. */
  predicate NoSep(s: string) { forall i: nat :: i < |s| ==> !SepAt(s, i) }

  /** `s` ends in `" -"`, which the separator after it would complete into `" - "`. */
  predicate EndsInSpaceDash(s: string) { |s| >= 2 && s[|s| - 2] == ' ' && s[|s| - 1] == '-' }

  /** Position of the first `" - "` in `s`, or `|s|` when there is none. */
  function FirstSep(s: string): (i: nat)
    ensures i <= |s|
    ensures i < |s| ==> SepAt(s, i)
    ensures forall j: nat :: j < i ==> !SepAt(s, j)
  {
    if |s| < 3 then |s|
    else if SepAt(s, 0) then 0
    else
      var k := FirstSep(s[1..]);
      assert forall j: nat :: 1 <= j < k + 1 ==> (SepAt(s, j) <==> SepAt(s[1..], j - 1));
      assert k < |s| - 1 ==> SepAt(s[1..], k) && SepAt(s, k + 1);
      1 + k
  }

  /** The first `" - "` of `p + " - " + rest` is the one after `p`, when `p` cannot take part in an earlier one. */
  lemma FirstSepAfter(p: string, rest: string)
    requires NoSep(p) && !EndsInSpaceDash(p)
    ensures FirstSep(p + " - " + rest) == |p|
  {
    var t := p + " - " + rest;
    assert SepAt(t, |p|);
    forall j: nat | j < |p|
      ensures !SepAt(t, j)
    {
      if j + 3 <= |p| {
        assert !SepAt(p, j);
        assert t[j] == p[j] && t[j + 1] == p[j + 1] && t[j + 2] == p[j + 2];
      } else if j + 2 == |p| {
        assert t[j] == p[j] && t[j + 1] == p[j + 1];
      } else {
        assert t[j + 1] == ' ';
      }
    }
  }

  /** An artist name the label can be read back from: no comma, no `" - "`, and no trailing `" -"`. */
  predicate PlainArtist(a: string) { NoComma(a) && NoSep(a) && !EndsInSpaceDash(a) }

  lemma {:induction false} JoinCommaPlain(xs: seq<string>)
    requires xs != []
    requires forall k :: 0 <= k < |xs| ==> PlainArtist(xs[k])
    ensures NoSep(JoinComma(xs)) && !EndsInSpaceDash(JoinComma(xs))
  {
    if |xs| > 1 {
      JoinCommaPlain(xs[1..]);
      var x, rest := xs[0], JoinComma(xs[1..]);
      var t := JoinComma(xs);
      assert t == x + "," + rest;
      assert t[|x|] == ',';
      forall j: nat | j < |t|
        ensures !SepAt(t, j)
      {
        if j + 3 <= |x| {
          assert !SepAt(x, j);
          assert t[j] == x[j] && t[j + 1] == x[j + 1] && t[j + 2] == x[j + 2];
        } else if j > |x| && j + 3 <= |t| {
          assert !SepAt(rest, j - |x| - 1);
          assert t[j] == rest[j - |x| - 1] && t[j + 1] == rest[j - |x|] && t[j + 2] == rest[j - |x| + 1];
        }
      }
      if |rest| >= 2 {
        assert t[|t| - 2] == rest[|rest| - 2] && t[|t| - 1] == rest[|rest| - 1];
      } else if |rest| == 1 {
        assert t[|t| - 2] == ',';
      } else {
        assert t[|t| - 1] == ',';
      }
    }
  }

  /**
   * Reads an untagged track label back: the artists before the first " - ",
   * split at commas, and the name after it; a label without one is a bare name.
   */
  function ReadTrackString(text: string): (seq<string>, string)
  {
    var i := FirstSep(text);
    if i < |text| then (SplitComma(text[..i]), text[i + 3..]) else ([], text)
  }

  /**
   * Within the artist limit an untagged label loses nothing: the artists and
   * the name read back, for artist names without a comma or " - " (hyphens
   * inside a name, as in "Jay-Z", are fine).
   */
  lemma TrackStringReadBack(artists: seq<string>, name: string, artistLimit: int, isAlbum: bool)
    requires 0 < |artists| <= artistLimit
    requires forall k :: 0 <= k < |artists| ==> PlainArtist(artists[k])
    ensures ReadTrackString(TrackString(artists, name, artistLimit, false, isAlbum)) == (artists, name)
  {
    var j := JoinComma(artists);
    var text := TrackString(artists, name, artistLimit, false, isAlbum);
    assert text == j + " - " + name;
    JoinCommaPlain(artists);
    FirstSepAfter(j, name);
    assert text[..|j|] == j;
    assert text[|j| + 3..] == name;
    JoinCommaRoundTrip(artists);
  }

  /** A hyphen inside an artist name is kept in the label and read back. */
  lemma HyphenatedArtistExample()
    ensures TrackString(["Jay-Z"], "Song", 1, false, false) == "Jay-Z - Song"
    ensures ReadTrackString("Jay-Z - Song") == (["Jay-Z"], "Song")
  {
    TrackStringReadBack(["Jay-Z"], "Song", 1, false);
  }

  const LabelMax: nat := 100

  /** A select-option label: cut to 97 characters plus "..." when longer than 100. */
  function TruncateLabel(text: string): (r: string)
    ensures |r| <= LabelMax
    ensures |text| <= LabelMax ==> r == text
    ensures |text| > LabelMax ==> |r| == LabelMax && r[..97] == text[..97] && r[97..] == "..."
  {
    if |text| > LabelMax then text[..97] + "..." else text
  }
}
