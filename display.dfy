/**
 * The pure helpers of the feedback list (client/src/components/feedback-display.tsx):
 * the avatar's initials and colour, the relative age of a row, and the
 * count labels that take a plural `s` unless the number is 1. Case mapping
 * is ASCII only, and a character's code is its code point.
 */
module FeedbackDisplay {
  import opened Wrappers
  import opened JsNumber
  import opened JsArray

  // ---------------------------------------------------------------- initials

  /** `s.split(' ')`: the pieces between single spaces, empty pieces included; `""` is one empty piece. */
  function Split(s: string): (ws: seq<string>)
    ensures |ws| >= 1
    ensures forall i :: 0 <= i < |ws| ==> ' ' !in ws[i]
  {
    if s == [] then [[]]
    else
      var t := Split(s[1..]);
      if s[0] == ' ' then [[]] + t
      else [[s[0]] + t[0]] + t[1..]
  }

  /** `ws.join(' ')` */
  function Join(ws: seq<string>): string {
    if ws == [] then []
    else if |ws| == 1 then ws[0]
    else ws[0] + " " + Join(ws[1..])
  }

  /** Splitting loses nothing: joining the pieces with single spaces gives the string back. */
  lemma {:induction false} JoinSplit(s: string)
    ensures Join(Split(s)) == s
  {
    if s != [] {
      var t := Split(s[1..]);
      JoinSplit(s[1..]);
      if s[0] == ' ' {
        assert Split(s) == [[]] + t;
        assert ([[]] + t)[1..] == t;
        assert Join(Split(s)) == [] + " " + Join(t);
        assert s == [s[0]] + s[1..];
      } else {
        JoinConsFirst(s[0], t);
        assert s == [s[0]] + s[1..];
      }
    }
  }

  /** Putting a character in front of the first piece puts it in front of the joined string. */
  lemma JoinConsFirst(c: char, t: seq<string>)
    requires |t| >= 1
    ensures Join([[c] + t[0]] + t[1..]) == [c] + Join(t)
  {
    var u := [[c] + t[0]] + t[1..];
    assert u[0] == [c] + t[0] && u[1..] == t[1..];
    if |t| > 1 {
      AppendAssoc([c] + t[0], " ", Join(t[1..]));
      AppendAssoc([c], t[0], " " + Join(t[1..]));
      AppendAssoc(t[0], " ", Join(t[1..]));
    }
  }

  /** Splitting a joined list of space-free pieces gives the pieces back. */
  lemma {:induction false} SplitJoin(ws: seq<string>)
    requires |ws| >= 1
    requires forall i :: 0 <= i < |ws| ==> ' ' !in ws[i]
    ensures Split(Join(ws)) == ws
  {
    if |ws| == 1 {
      SplitWord(ws[0], []);
      assert ws[0] + [] == ws[0];
    } else {
      var rest := Join(ws[1..]);
      SplitJoin(ws[1..]);
      AppendAssoc(ws[0], " ", rest);
      SplitWord(ws[0], " " + rest);
      assert (" " + rest)[1..] == rest;
      assert Split(" " + rest) == [[]] + ws[1..];
      assert ws[0] + [] == ws[0];
      assert ws == [ws[0]] + ws[1..];
    }
  }

  /** A space-free prefix joins the first piece of what follows it. */
  lemma {:induction false} SplitWord(w: string, s: string)
    requires ' ' !in w
    ensures Split(w + s) == [w + Split(s)[0]] + Split(s)[1..]
  {
    if w == [] {
      assert w + s == s && w + Split(s)[0] == Split(s)[0];
      assert Split(s) == [Split(s)[0]] + Split(s)[1..];
    } else {
      assert (w + s)[0] == w[0] && (w + s)[1..] == w[1..] + s;
      assert w[0] != ' ' && ' ' !in w[1..];
      SplitWord(w[1..], s);
      AppendAssoc([w[0]], w[1..], Split(s)[0]);
      assert [w[0]] + w[1..] == w;
    }
  }

  /** `toUpperCase()` on one ASCII character. */
  function Upper(c: char): (u: char)
    ensures 'a' <= c <= 'z' ==> 'A' <= u <= 'Z' && u as int == c as int - 32
    ensures !('a' <= c <= 'z') ==> u == c
  {
    if 'a' <= c <= 'z' then (c as int - 32) as char else c
  }

  /** `word.charAt(0).toUpperCase()`: the empty word gives the empty string. */
  function FirstUpper(w: string): string {
    if w == [] then [] else [Upper(w[0])]
  }

  function Firsts(ws: seq<string>): string {
    if ws == [] then [] else FirstUpper(ws[0]) + Firsts(ws[1..])
  }

  /** `getInitials(name)` */
  function Initials(name: string): string {
    Firsts(Split(name))
  }

  /**
   * The initials read character by character: a character that is not a
   * space and starts the string or follows a space contributes its upper
   * case; `atStart` says whether the previous character was a space.
   */
  function Scan(s: string, atStart: bool): string {
    if s == [] then []
    else if s[0] == ' ' then Scan(s[1..], true)
    else (if atStart then [Upper(s[0])] else []) + Scan(s[1..], false)
  }

  /**
   * One upper-cased character per non-empty word, in order: runs of spaces
   * and leading or trailing spaces add nothing.
   */
  lemma InitialsAreWordStarts(name: string)
    ensures Initials(name) == Scan(name, true)
  {
    ScanSplit(name);
  }

  lemma {:induction false} ScanSplit(s: string)
    ensures Scan(s, true) == Firsts(Split(s))
    ensures Scan(s, false) == Firsts(Split(s)[1..])
  {
    if s == [] {
      assert Firsts([[]]) == FirstUpper([]) + Firsts([]);
    } else {
      var t := Split(s[1..]);
      ScanSplit(s[1..]);
      if s[0] == ' ' {
        var ws := [[]] + t;
        assert ws[0] == [] && ws[1..] == t;
        assert Firsts(ws) == [] + Firsts(t);
      } else {
        var ws := [[s[0]] + t[0]] + t[1..];
        assert ws[0] == [s[0]] + t[0] && ws[1..] == t[1..];
        assert Firsts(t) == FirstUpper(t[0]) + Firsts(t[1..]);
        assert Scan(s, false) == [] + Scan(s[1..], false);
      }
    }
  }

  /** A doubled space adds no initial. */
  lemma InitialsExample()
    ensures Initials("ann  lee") == "AL"
  {
    InitialsAreWordStarts("ann  lee");
  }

  /** Every initial is the upper case of a character of the name that is not a space. */
  lemma {:induction false} ScanFromName(s: string, atStart: bool)
    ensures |Scan(s, atStart)| <= |s|
    ensures forall j :: 0 <= j < |Scan(s, atStart)| ==> exists i :: 0 <= i < |s| && s[i] != ' ' && Scan(s, atStart)[j] == Upper(s[i])
  {
    if s != [] {
      ScanFromName(s[1..], s[0] == ' ');
      var head: string := if s[0] != ' ' && atStart then [Upper(s[0])] else [];
      var tail := Scan(s[1..], s[0] == ' ');
      assert Scan(s, atStart) == head + tail;
      forall j | 0 <= j < |head + tail|
        ensures exists i :: 0 <= i < |s| && s[i] != ' ' && (head + tail)[j] == Upper(s[i])
      {
        if j < |head| {
          assert s[0] != ' ' && (head + tail)[j] == Upper(s[0]);
        } else {
          var i :| 0 <= i < |s[1..]| && s[1..][i] != ' ' && tail[j - |head|] == Upper(s[1..][i]);
          assert s[i + 1] == s[1..][i];
        }
      }
    }
  }

  // ---------------------------------------------------------------- avatar colour

  const Colors: seq<string> := ["bg-blue-500", "bg-emerald-500", "bg-purple-500", "bg-pink-500", "bg-indigo-500"]

  /** `s.split('').reduce((acc, c) => acc + c.charCodeAt(0), 0)`: the left fold of the character codes. */
  function CodeSum(s: string): nat {
    if s == [] then 0 else CodeSum(s[..|s| - 1]) + s[|s| - 1] as nat
  }

  /** `getAvatarColor(name)`: one of the five colours, chosen by the code sum modulo 5. */
  function AvatarColor(name: string): (c: string)
    ensures c in Colors
    ensures exists i :: 0 <= i < |Colors| && c == Colors[i] && i == CodeSum(name) % |Colors|
  {
    Colors[CodeSum(name) % |Colors|]
  }

  lemma {:induction false} CodeSumAppend(a: string, b: string)
    ensures CodeSum(a + b) == CodeSum(a) + CodeSum(b)
    decreases |b|
  {
    if b == [] {
      assert a + b == a;
    } else {
      var b' := b[..|b| - 1];
      assert (a + b)[..|a + b| - 1] == a + b';
      CodeSumAppend(a, b');
    }
  }

  /** The code sum depends only on which characters occur how often, not on their order. */
  lemma {:induction false} CodeSumPermutation(a: string, b: string)
    requires multiset(a) == multiset(b)
    ensures CodeSum(a) == CodeSum(b)
    decreases |a|
  {
    if a != [] {
      var a' := a[..|a| - 1];
      var x := a[|a| - 1];
      assert a == a' + [x];
      assert x in multiset(b);
      var j :| 0 <= j < |b| && b[j] == x;
      var b1, b2 := b[..j], b[j + 1..];
      assert b == b1 + [x] + b2;
      assert multiset(b) == multiset(b1) + multiset{x} + multiset(b2);
      assert multiset(a) == multiset(a') + multiset{x};
      assert multiset(a') == multiset(a) - multiset{x};
      assert multiset(b1 + b2) == multiset(b1) + multiset(b2) == multiset(b) - multiset{x};
      CodeSumPermutation(a', b1 + b2);
      CodeSumAppend(a', [x]);
      CodeSumAppend(b1 + [x], b2);
      CodeSumAppend(b1, [x]);
      CodeSumAppend(b1, b2);
      assert CodeSum([x]) == x as nat by {
        assert [x][..0] == [];
      }
    } else {
      assert |b| == |multiset(b)| == 0;
    }
  }

  /** Any reordering of a name's characters gets the same avatar colour. */
  lemma AvatarColorPermutationInvariant(a: string, b: string)
    requires multiset(a) == multiset(b)
    ensures AvatarColor(a) == AvatarColor(b)
  {
    CodeSumPermutation(a, b);
  }

  // ---------------------------------------------------------------- relative age

  /** Which bucket an age falls into, with the number the label shows. */
  datatype Elapsed = JustNow | Minutes(n: nat) | Hours(n: nat) | Days(n: nat)

  /** `Math.floor((now - timestamp) / 1000)`, both times in milliseconds. */
  function ElapsedSeconds(timestamp: int, now: int): (d: int)
    ensures d * 1000 <= now - timestamp < (d + 1) * 1000
  {
    (now - timestamp) / 1000
  }

  /** The buckets of `getTimeAgo`: under a minute, under an hour, under a day, else days, each count rounded down. */
  function Classify(d: int): (e: Elapsed)
    ensures e == JustNow <==> d < 60
    ensures e.Minutes? <==> 60 <= d < 3600
    ensures e.Hours? <==> 3600 <= d < 86400
    ensures e.Days? <==> 86400 <= d
    ensures e.Minutes? ==> 1 <= e.n < 60 && e.n * 60 <= d < (e.n + 1) * 60
    ensures e.Hours? ==> 1 <= e.n < 24 && e.n * 3600 <= d < (e.n + 1) * 3600
    ensures e.Days? ==> 1 <= e.n && e.n * 86400 <= d < (e.n + 1) * 86400
  {
    if d < 60 then JustNow
    else if d < 3600 then Minutes(d / 60)
    else if d < 86400 then Hours(d / 3600)
    else Days(d / 86400)
  }

  const MinutesSuffix: string := " minutes ago"
  const HoursSuffix: string := " hours ago"
  const DaysSuffix: string := " days ago"

  /** The text shown for a bucket. */
  function Label(e: Elapsed): string {
    match e
    case JustNow => "Just now"
    case Minutes(n) => NumberToString(n) + MinutesSuffix
    case Hours(n) => NumberToString(n) + HoursSuffix
    case Days(n) => NumberToString(n) + DaysSuffix
  }

  /** `getTimeAgo(timestamp)` at the time `now`. */
  function TimeAgo(timestamp: int, now: int): string {
    Label(Classify(ElapsedSeconds(timestamp, now)))
  }

  /** A timestamp less than a minute old, or in the future, shows "Just now". */
  lemma RecentOrFutureIsJustNow(timestamp: int, now: int)
    requires now - timestamp < 60000
    ensures TimeAgo(timestamp, now) == "Just now"
  {
  }

  /** Reads a label back: "Just now", or a numeral followed by one of the three suffixes. */
  function ReadLabel(s: string): Option<Elapsed> {
    if s == "Just now" then Some(JustNow)
    else match ParseInt(s)
      case None => None
      case Some(n) =>
        var k := |NumberToString(n)|;
        if n < 0 || k > |s| then None
        else if s[k..] == MinutesSuffix then Some(Minutes(n))
        else if s[k..] == HoursSuffix then Some(Hours(n))
        else if s[k..] == DaysSuffix then Some(Days(n))
        else None
  }

  /** Every bucket's label reads back as that bucket, so no two buckets or counts share a label. */
  lemma LabelRoundTrip(e: Elapsed)
    ensures ReadLabel(Label(e)) == Some(e)
  {
    if !e.JustNow? {
      var suffix := if e.Minutes? then MinutesSuffix else if e.Hours? then HoursSuffix else DaysSuffix;
      var numeral := NumberToString(e.n);
      assert Label(e) == numeral + suffix;
      ParseIntNumberPrefix(e.n, suffix);
      assert (numeral + suffix)[|numeral|..] == suffix;
      assert (numeral + suffix)[0] == numeral[0] && IsDigit(numeral[0], 10);
    }
  }

  /** Different buckets show different text. */
  lemma LabelInjective(e: Elapsed, f: Elapsed)
    requires Label(e) == Label(f)
    ensures e == f
  {
    LabelRoundTrip(e);
    LabelRoundTrip(f);
  }

  // ---------------------------------------------------------------- count labels

  /** The noun, with a plural `s` unless the number is exactly 1. */
  function Inflected(n: int, noun: string): string {
    if n != 1 then noun + "s" else noun
  }

  /** `{n} review{n !== 1 ? 's' : ''}` and `{n} star{n !== 1 ? 's' : ''}`: the numeral, a space, the noun. */
  function CountLabel(n: int, noun: string): string {
    NumberToString(n) + " " + Inflected(n, noun)
  }

  /** The label starts with the count itself: reading its number gives `n` back. */
  lemma CountLabelShowsCount(n: int, noun: string)
    ensures ParseInt(CountLabel(n, noun)) == Some(n)
  {
    var rest := " " + Inflected(n, noun);
    AppendAssoc(NumberToString(n), " ", Inflected(n, noun));
    ParseIntNumberPrefix(n, rest);
  }

  lemma SingularExample()
    ensures CountLabel(1, "review") == "1 review"
  {
    assert NumberToString(1) == "1" by { assert DigitChar(1) == '1'; }
  }

  lemma PluralExample()
    ensures CountLabel(3, "star") == "3 stars"
  {
    assert NumberToString(3) == "3" by { assert DigitChar(3) == '3'; }
  }

  predicate EndsWith(s: string, suffix: string) {
    |suffix| <= |s| && s[|s| - |suffix|..] == suffix
  }

  /** The label is plural exactly when the number is not 1 (for a noun without spaces). */
  lemma PluralUnlessOne(n: int, noun: string)
    requires ' ' !in noun
    ensures EndsWith(CountLabel(n, noun), noun + "s") <==> n != 1
  {
    var numeral := NumberToString(n);
    if n != 1 {
      AppendIsEnding(numeral + " ", noun + "s");
    } else {
      AppendAssoc(numeral, " ", noun);
      AppendIsEnding(numeral, " " + noun);
      var r := CountLabel(n, noun);
      assert r[|r| - |noun| - 1..] == " " + noun;
      if noun != [] {
        assert (" " + noun)[0] == ' ' && (noun + "s")[0] == noun[0] && noun[0] in noun;
      } else {
        assert " " != "s";
      }
    }
  }

  lemma AppendIsEnding(p: string, q: string)
    ensures EndsWith(p + q, q)
  {
    assert (p + q)[|p|..] == q;
  }

}
