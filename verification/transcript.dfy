/** The transcript segments of a real-time session and their rendering.
    `GetFullTranscript`, `GetTranslatedTranscript` and the live view of the
    main window all order the segments with LINQ's `OrderBy(s => s.StartTime)`,
    which is a stable sort, and print one block per segment: a
    `[start - end]` header line, a body line and an empty line. */
module Transcript {
  import opened Wrappers
  import opened Text
  import opened TimeFormat

  /** `TranscriptSegment`; times are `TimeSpan`s in whole milliseconds. */
  datatype Segment = Segment(chunkNumber: int, startMs: int, endMs: int, text: string)

  predicate SortedByStart(s: seq<Segment>)
  {
    forall i, j :: 0 <= i < j < |s| ==> s[i].startMs <= s[j].startMs
  }

  /** The segments of `s` whose start time is `k`, in their order in `s`. */
  function WithStart(s: seq<Segment>, k: int): seq<Segment>
    decreases |s|
  {
    if |s| == 0 then []
    else (if s[0].startMs == k then [s[0]] else []) + WithStart(s[1..], k)
  }

  /** Inserts `x` after every element whose start is not later than its own:
      the step of a stable insertion sort that takes elements in order. */
  function Insert(x: Segment, s: seq<Segment>): (r: seq<Segment>)
    requires SortedByStart(s)
    ensures SortedByStart(r)
    ensures multiset(r) == multiset(s) + multiset{x}
    ensures |r| == |s| + 1
    ensures r[0] == x || (|s| > 0 && r[0] == s[0])
    decreases |s|
  {
    if |s| == 0 then [x]
    else if s[0].startMs > x.startMs then [x] + s
    else
      var t := Insert(x, s[1..]);
      SortedCons(s[0], t);
      MultisetCons(s[0], t, s[1..], x);
      assert s == [s[0]] + s[1..];
      [s[0]] + t
  }

  /** Putting the same head before `t` and `rest` keeps `t` holding one `x`
      more than `rest`. */
  lemma MultisetCons(y: Segment, t: seq<Segment>, rest: seq<Segment>, x: Segment)
    requires multiset(t) == multiset(rest) + multiset{x}
    ensures multiset([y] + t) == multiset([y] + rest) + multiset{x}
  {
  }

  /** An element no later than the head of a sorted sequence can go in front. */
  lemma SortedCons(y: Segment, t: seq<Segment>)
    requires SortedByStart(t) && (|t| > 0 ==> y.startMs <= t[0].startMs)
    ensures SortedByStart([y] + t)
  {
    var r := [y] + t;
    forall i, j | 0 <= i < j < |r|
      ensures r[i].startMs <= r[j].startMs
    {
      if i == 0 {
        assert r[j] == t[j - 1];
      } else {
        assert r[i] == t[i - 1] && r[j] == t[j - 1];
      }
    }
  }

  /** `OrderBy(s => s.StartTime)`: elements are taken in their original order
      and each is placed after all earlier elements with a start not later
      than its own. */
  function SortByStart(s: seq<Segment>): (r: seq<Segment>)
    ensures SortedByStart(r)
    ensures multiset(r) == multiset(s)
    ensures |r| == |s|
    decreases |s|
  {
    if |s| == 0 then []
    else
      var p := s[..|s| - 1];
      assert s == p + [s[|s| - 1]];
      Insert(s[|s| - 1], SortByStart(p))
  }

  lemma {:induction false} WithStartAppend(a: seq<Segment>, b: seq<Segment>, k: int)
    ensures WithStart(a + b, k) == WithStart(a, k) + WithStart(b, k)
    decreases |a|
  {
    if |a| == 0 {
      assert a + b == b;
    } else {
      var h := if a[0].startMs == k then [a[0]] else [];
      assert (a + b)[1..] == a[1..] + b;
      assert WithStart(a + b, k) == h + WithStart(a[1..] + b, k);
      WithStartAppend(a[1..], b, k);
    }
  }

  lemma {:induction false} WithStartNone(s: seq<Segment>, k: int)
    requires forall i :: 0 <= i < |s| ==> s[i].startMs != k
    ensures WithStart(s, k) == []
    decreases |s|
  {
    if |s| > 0 {
      WithStartNone(s[1..], k);
    }
  }

  /** Inserting `x` into a sorted sequence puts it after every element
      with the same start: the relative order per start time gains `x` last. */
  lemma {:induction false} WithStartInsert(x: Segment, s: seq<Segment>, k: int)
    requires SortedByStart(s)
    ensures WithStart(Insert(x, s), k) == WithStart(s, k) + (if x.startMs == k then [x] else [])
    decreases |s|
  {
    if |s| == 0 || s[0].startMs > x.startMs {
      assert Insert(x, s) == [x] + s;
      WithStartInFront(x, s, k);
    } else {
      var t := Insert(x, s[1..]);
      assert Insert(x, s) == [s[0]] + t;
      WithStartInsert(x, s[1..], k);
      WithStartBehindHead(s[0], t, s[1..], x, k);
      assert [s[0]] + s[1..] == s;
    }
  }

  /** An element placed before a sorted sequence of later starts is the
      last of its start. */
  lemma WithStartInFront(x: Segment, s: seq<Segment>, k: int)
    requires SortedByStart(s) && (|s| == 0 || s[0].startMs > x.startMs)
    ensures WithStart([x] + s, k) == WithStart(s, k) + (if x.startMs == k then [x] else [])
  {
    if x.startMs == k {
      forall i | 0 <= i < |s|
        ensures s[i].startMs != k
      {
        assert i == 0 || s[0].startMs <= s[i].startMs;
      }
      WithStartNone(s, k);
    }
    WithStartCons(x, s, k);
  }

  /** A common head does not disturb the selection of a later tail. */
  lemma WithStartBehindHead(y: Segment, t: seq<Segment>, rest: seq<Segment>, x: Segment, k: int)
    requires WithStart(t, k) == WithStart(rest, k) + (if x.startMs == k then [x] else [])
    ensures WithStart([y] + t, k) == WithStart([y] + rest, k) + (if x.startMs == k then [x] else [])
  {
    var h := if y.startMs == k then [y] else [];
    var xs := if x.startMs == k then [x] else [];
    WithStartCons(y, t, k);
    WithStartCons(y, rest, k);
    assert h + (WithStart(rest, k) + xs) == (h + WithStart(rest, k)) + xs;
  }

  /** Selecting from a sequence with a given head. */
  lemma WithStartCons(y: Segment, t: seq<Segment>, k: int)
    ensures WithStart([y] + t, k) == (if y.startMs == k then [y] else []) + WithStart(t, k)
  {
    assert ([y] + t)[1..] == t;
  }

  /** Stability of `SortByStart`: for each start time, the segments with that
      start keep their original relative order. */
  lemma {:induction false} SortIsStable(s: seq<Segment>, k: int)
    ensures WithStart(SortByStart(s), k) == WithStart(s, k)
    decreases |s|
  {
    if |s| > 0 {
      var p, x := s[..|s| - 1], s[|s| - 1];
      assert s == p + [x];
      assert SortByStart(s) == Insert(x, SortByStart(p));
      SortIsStable(p, k);
      WithStartInsert(x, SortByStart(p), k);
      WithStartAppend(p, [x], k);
      assert WithStart([x], k) == (if x.startMs == k then [x] else []);
    }
  }

  lemma {:induction false} WithStartFirst(s: seq<Segment>)
    requires |s| > 0
    ensures WithStart(s, s[0].startMs) == [s[0]] + WithStart(s[1..], s[0].startMs)
  {
  }

  /** A start time that no element of `s` has selects nothing, and one that
      some element has selects that element's group. */
  lemma {:induction false} WithStartNonEmpty(s: seq<Segment>, i: int)
    requires 0 <= i < |s|
    ensures |WithStart(s, s[i].startMs)| > 0
    decreases |s|
  {
    if i > 0 {
      WithStartNonEmpty(s[1..], i - 1);
    }
  }

  lemma {:induction false} WithStartMember(s: seq<Segment>, k: int)
    requires |WithStart(s, k)| > 0
    ensures exists i :: 0 <= i < |s| && s[i].startMs == k
    decreases |s|
  {
    if s[0].startMs != k {
      WithStartMember(s[1..], k);
      var i :| 0 <= i < |s[1..]| && s[1..][i].startMs == k;
      assert s[i + 1].startMs == k;
    }
  }

  /** Two non-empty sorted sequences with the same groups start with the
      same segment: the first of the smallest start time. */
  lemma SortedHeadsAgree(a: seq<Segment>, b: seq<Segment>)
    requires SortedByStart(a) && SortedByStart(b) && |a| > 0 && |b| > 0
    requires forall k :: WithStart(a, k) == WithStart(b, k)
    ensures a[0] == b[0]
  {
    var ka, kb := a[0].startMs, b[0].startMs;
    WithStartNonEmpty(a, 0);
    WithStartNonEmpty(b, 0);
    assert WithStart(b, ka) == WithStart(a, ka);
    WithStartMember(b, ka);
    assert WithStart(a, kb) == WithStart(b, kb);
    WithStartMember(a, kb);
    assert ka == kb;
    WithStartFirst(a);
    WithStartFirst(b);
    assert a[0] == WithStart(a, ka)[0] == WithStart(b, kb)[0] == b[0];
  }

  /** Dropping a common first segment keeps the groups equal. */
  lemma GroupsOfTails(a: seq<Segment>, b: seq<Segment>)
    requires |a| > 0 && |b| > 0 && a[0] == b[0]
    requires forall k :: WithStart(a, k) == WithStart(b, k)
    ensures forall k :: WithStart(a[1..], k) == WithStart(b[1..], k)
  {
    forall k
      ensures WithStart(a[1..], k) == WithStart(b[1..], k)
    {
      var p := if a[0].startMs == k then [a[0]] else [];
      assert WithStart(a, k) == p + WithStart(a[1..], k);
      assert WithStart(b, k) == p + WithStart(b[1..], k);
      assert WithStart(a[1..], k) == (p + WithStart(a[1..], k))[|p|..];
      assert WithStart(b[1..], k) == (p + WithStart(b[1..], k))[|p|..];
    }
  }

  /** A sorted sequence is determined by its groups of equal start time:
      two sorted sequences that agree on every group are equal. */
  lemma {:induction false} SortedUnique(a: seq<Segment>, b: seq<Segment>)
    requires SortedByStart(a) && SortedByStart(b)
    requires forall k :: WithStart(a, k) == WithStart(b, k)
    ensures a == b
    decreases |a| + |b|
  {
    if |a| == 0 && |b| == 0 {
    } else if |a| == 0 {
      WithStartNonEmpty(b, 0);
      assert false;
    } else if |b| == 0 {
      WithStartNonEmpty(a, 0);
      assert false;
    } else {
      SortedHeadsAgree(a, b);
      GroupsOfTails(a, b);
      SortedUnique(a[1..], b[1..]);
      assert a == [a[0]] + a[1..] && b == [b[0]] + b[1..];
    }
  }

  /** The sorted order depends on the input order only among segments of
      equal start time: inputs that agree on every such group sort alike. */
  lemma SortDependsOnlyOnGroups(s: seq<Segment>, t: seq<Segment>)
    requires forall k :: WithStart(s, k) == WithStart(t, k)
    ensures SortByStart(s) == SortByStart(t)
  {
    forall k
      ensures WithStart(SortByStart(s), k) == WithStart(SortByStart(t), k)
    {
      SortIsStable(s, k);
      SortIsStable(t, k);
    }
    SortedUnique(SortByStart(s), SortByStart(t));
  }

  /** A sequence already in start order is left as it is. */
  lemma SortOfSorted(s: seq<Segment>)
    requires SortedByStart(s)
    ensures SortByStart(s) == s
  {
    forall k
      ensures WithStart(SortByStart(s), k) == WithStart(s, k)
    {
      SortIsStable(s, k);
    }
    SortedUnique(SortByStart(s), s);
  }

  predicate DistinctStarts(s: seq<Segment>)
  {
    forall i, j :: 0 <= i < j < |s| ==> s[i].startMs != s[j].startMs
  }

  lemma {:induction false} WithStartDistinct(s: seq<Segment>, k: int)
    requires DistinctStarts(s)
    ensures WithStart(s, k) == [] || exists i :: 0 <= i < |s| && s[i].startMs == k && WithStart(s, k) == [s[i]]
    decreases |s|
  {
    if |s| > 0 {
      WithStartDistinct(s[1..], k);
      if s[0].startMs == k {
        WithStartNone(s[1..], k);
        assert WithStart(s, k) == [s[0]];
      } else {
        if WithStart(s[1..], k) != [] {
          var i :| 0 <= i < |s[1..]| && s[1..][i].startMs == k && WithStart(s[1..], k) == [s[1..][i]];
          assert WithStart(s, k) == [s[i + 1]];
        }
      }
    }
  }

  lemma {:induction false} WithStartOfMember(s: seq<Segment>, i: int)
    requires DistinctStarts(s) && 0 <= i < |s|
    ensures WithStart(s, s[i].startMs) == [s[i]]
    decreases |s|
  {
    if i == 0 {
      WithStartNone(s[1..], s[0].startMs);
    } else {
      WithStartOfMember(s[1..], i - 1);
    }
  }

  /** When no two segments share a start time, the sorted order does not
      depend on the order in which the segments arrived at all. */
  lemma SortIgnoresArrivalOrder(s: seq<Segment>, t: seq<Segment>)
    requires DistinctStarts(s) && multiset(s) == multiset(t)
    ensures SortByStart(s) == SortByStart(t)
  {
    assert DistinctStarts(t) by {
      forall x
        ensures multiset(t)[x] <= 1
      {
        MultiplicityAtMostOne(s, x);
      }
      forall i, j | 0 <= i < j < |t|
        ensures t[i].startMs != t[j].startMs
      {
        RepeatedTwice(t, i, j);
        assert t[i] in multiset(s) && t[j] in multiset(s);
        var a :| 0 <= a < |s| && s[a] == t[i];
        var b :| 0 <= b < |s| && s[b] == t[j];
        assert a != b;
      }
    }
    forall k
      ensures WithStart(s, k) == WithStart(t, k)
    {
      WithStartDistinct(s, k);
      WithStartDistinct(t, k);
      if WithStart(s, k) != [] {
        var i :| 0 <= i < |s| && s[i].startMs == k && WithStart(s, k) == [s[i]];
        assert s[i] in multiset(t);
        var j :| 0 <= j < |t| && t[j] == s[i];
        WithStartOfMember(s, i);
        WithStartOfMember(t, j);
      }
      if WithStart(t, k) != [] {
        var j :| 0 <= j < |t| && t[j].startMs == k && WithStart(t, k) == [t[j]];
        assert t[j] in multiset(s);
        var i :| 0 <= i < |s| && s[i] == t[j];
        WithStartOfMember(s, i);
        WithStartOfMember(t, j);
      }
    }
    SortDependsOnlyOnGroups(s, t);
  }

  /** A segment occurring at two positions occurs at least twice. */
  lemma RepeatedTwice(t: seq<Segment>, i: int, j: int)
    requires 0 <= i < j < |t|
    ensures t[i] == t[j] ==> multiset(t)[t[i]] >= 2
  {
    assert t == t[..i] + [t[i]] + t[i + 1..j] + [t[j]] + t[j + 1..];
  }

  lemma {:induction false} MultiplicityAtMostOne(s: seq<Segment>, x: Segment)
    requires DistinctStarts(s)
    ensures multiset(s)[x] <= 1
    decreases |s|
  {
    if |s| > 0 {
      assert s == [s[0]] + s[1..];
      MultiplicityAtMostOne(s[1..], x);
      if s[0] == x {
        assert x !in s[1..];
      }
    }
  }

  /** A segment that starts no earlier than every segment already held is
      rendered last: the live transcript grows at its end. */
  lemma SortAppendLatest(s: seq<Segment>, x: Segment)
    requires forall i :: 0 <= i < |s| ==> s[i].startMs <= x.startMs
    ensures SortByStart(s + [x]) == SortByStart(s) + [x]
  {
    SortKeepsUpperBound(s, x);
    SortSnoc(s, x);
    InsertLatest(x, SortByStart(s));
  }

  /** Sorting keeps a bound every element is under. */
  lemma SortKeepsUpperBound(s: seq<Segment>, x: Segment)
    requires forall i :: 0 <= i < |s| ==> s[i].startMs <= x.startMs
    ensures forall i :: 0 <= i < |SortByStart(s)| ==> SortByStart(s)[i].startMs <= x.startMs
  {
    var r := SortByStart(s);
    forall i | 0 <= i < |r|
      ensures r[i].startMs <= x.startMs
    {
      assert r[i] in multiset(r);
      assert r[i] in s;
    }
  }

  lemma SortSnoc(s: seq<Segment>, x: Segment)
    ensures SortByStart(s + [x]) == Insert(x, SortByStart(s))
  {
    assert (s + [x])[..|s|] == s;
  }

  lemma {:induction false} InsertLatest(x: Segment, s: seq<Segment>)
    requires SortedByStart(s)
    requires forall i :: 0 <= i < |s| ==> s[i].startMs <= x.startMs
    ensures Insert(x, s) == s + [x]
    decreases |s|
  {
    if |s| > 0 {
      InsertLatest(x, s[1..]);
      assert [s[0]] + (s[1..] + [x]) == s + [x];
    }
  }

  /** The header line of a segment. */
  function Header(seg: Segment): string
  {
    "[" + FormatTimeSpan(seg.startMs) + " - " + FormatTimeSpan(seg.endMs) + "]"
  }

  /** The three `AppendLine` calls of one segment: header, body, empty line. */
  function Block(seg: Segment, body: string): string
  {
    Header(seg) + NewLine + body + NewLine + NewLine
  }

  /** The blocks of `segs` in the given order, each with the body `body`
      chooses for it. */
  function Blocks(segs: seq<Segment>, body: Segment -> string): (r: seq<string>)
    ensures |r| == |segs|
    ensures forall i :: 0 <= i < |segs| ==> r[i] == Block(segs[i], body(segs[i]))
  {
    seq(|segs|, i requires 0 <= i < |segs| => Block(segs[i], body(segs[i])))
  }

  /** The text of a transcript: the blocks of the segments in stable
      start-time order. */
  function Render(segs: seq<Segment>, body: Segment -> string): string
  {
    Concat(Blocks(SortByStart(segs), body))
  }

  /** A new segment that starts no earlier than the others adds exactly its
      block at the end of the rendered text. */
  lemma RenderAppendLatest(segs: seq<Segment>, x: Segment, body: Segment -> string)
    requires forall i :: 0 <= i < |segs| ==> segs[i].startMs <= x.startMs
    ensures Render(segs + [x], body) == Render(segs, body) + Block(x, body(x))
  {
    SortAppendLatest(segs, x);
    ConcatBlocksAppend(SortByStart(segs), x, body);
  }

  lemma ConcatBlocksAppend(r: seq<Segment>, x: Segment, body: Segment -> string)
    ensures Concat(Blocks(r + [x], body)) == Concat(Blocks(r, body)) + Block(x, body(x))
  {
    BlocksAppend(r, x, body);
    ConcatAppend(Blocks(r, body), [Block(x, body(x))]);
    assert Concat([Block(x, body(x))]) == Block(x, body(x)) + Concat([]);
  }

  lemma BlocksAppend(r: seq<Segment>, x: Segment, body: Segment -> string)
    ensures Blocks(r + [x], body) == Blocks(r, body) + [Block(x, body(x))]
  {
    var u, v := Blocks(r + [x], body), Blocks(r, body) + [Block(x, body(x))];
    forall i | 0 <= i < |u|
      ensures u[i] == v[i]
    {
      if i < |r| {
        assert (r + [x])[i] == r[i];
      }
    }
  }

  /** Characters a non-negative clock reading is made of. */
  predicate IsClockText(s: string)
  {
    forall i :: 0 <= i < |s| ==> IsDigit(s[i]) || s[i] == ':'
  }

  lemma ClockText(ms: int)
    requires ms >= 0
    ensures IsClockText(FormatTimeSpan(ms)) && |FormatTimeSpan(ms)| > 0
  {
    TimeSpanIsDurationModDay(ms);
    var (h, m, s) := DurationParts((ms / 1000) % 86400);
    RenderedIsClockText(h, m, s);
  }

  /** A rendering of non-negative components is clock text. */
  lemma RenderedIsClockText(h: nat, m: nat, s: nat)
    ensures IsClockText(RenderClock(h, m, s)) && |RenderClock(h, m, s)| > 0
  {
    var pm, ps := Pad2(m), Pad2(s);
    DigitsAreClockText(pm);
    DigitsAreClockText(ps);
    if h > 0 {
      var hs := IntToString(h);
      DigitsAreClockText(hs);
      ConcatClockText(hs, ":");
      ConcatClockText(hs + ":", pm);
      ConcatClockText(hs + ":" + pm, ":");
      ConcatClockText(hs + ":" + pm + ":", ps);
    } else {
      var ms := IntToString(m);
      DigitsAreClockText(ms);
      ConcatClockText(ms, ":");
      ConcatClockText(ms + ":", ps);
    }
  }

  lemma DigitsAreClockText(s: string)
    requires IsDigits(s)
    ensures IsClockText(s)
  {
  }

  lemma ConcatClockText(a: string, b: string)
    requires IsClockText(a) && IsClockText(b)
    ensures IsClockText(a + b)
  {
  }

  /** Reads a header line back into the two clock readings it shows. */
  function ParseHeader(h: string): Option<(nat, nat)>
  {
    if |h| < 2 || h[0] != '[' || h[|h| - 1] != ']' then None
    else
      var f := SplitOn(h[1..|h| - 1], ' ');
      if |f| != 3 || f[1] != "-" then None
      else match (ParseClock(f[0]), ParseClock(f[2]))
        case (Some(a), Some(b)) => Some((a, b))
        case _ => None
  }

  /** Two body choices that agree on every segment render the same text. */
  lemma RenderBodiesAgree(segs: seq<Segment>, b1: Segment -> string, b2: Segment -> string)
    requires forall i :: 0 <= i < |segs| ==> b1(segs[i]) == b2(segs[i])
    ensures Render(segs, b1) == Render(segs, b2)
  {
    var r := SortByStart(segs);
    forall i | 0 <= i < |r|
      ensures b1(r[i]) == b2(r[i])
    {
      assert r[i] in multiset(r);
      assert r[i] in segs;
      var j :| 0 <= j < |segs| && segs[j] == r[i];
    }
    assert Blocks(r, b1) == Blocks(r, b2);
  }

  /** A header built from two clock texts reads back as the two readings. */
  lemma ParseHeaderOf(a: string, b: string, x: nat, y: nat)
    requires IsClockText(a) && IsClockText(b)
    requires ParseClock(a) == Some(x) && ParseClock(b) == Some(y)
    ensures ParseHeader("[" + a + " - " + b + "]") == Some((x, y))
  {
    var h := "[" + a + " - " + b + "]";
    assert h[1..|h| - 1] == a + [' '] + ("-" + [' '] + b);
    assert ' ' !in a;
    assert ' ' !in b;
    SplitOnCons(a, "-" + [' '] + b, ' ');
    SplitOnCons("-", b, ' ');
    SplitOnFree(b, ' ');
    assert SplitOn(h[1..|h| - 1], ' ') == [a, "-", b];
  }

  /** For non-negative times the header is readable and shows each time of
      day to the second: the header loses only whole days and fractions of
      a second. */
  lemma HeaderRoundTrip(seg: Segment)
    requires seg.startMs >= 0 && seg.endMs >= 0
    ensures ParseHeader(Header(seg))
         == Some(((seg.startMs / 1000) % 86400, (seg.endMs / 1000) % 86400))
  {
    ClockText(seg.startMs);
    ClockText(seg.endMs);
    TimeSpanIsDurationModDay(seg.startMs);
    TimeSpanIsDurationModDay(seg.endMs);
    ParseHeaderOf(FormatTimeSpan(seg.startMs), FormatTimeSpan(seg.endMs),
                  (seg.startMs / 1000) % 86400, (seg.endMs / 1000) % 86400);
  }
}
