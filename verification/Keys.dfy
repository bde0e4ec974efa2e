/** Object keys, and what listing a prefix of them returns. */
module Keys {
  import opened Wrappers
  import opened Bytes
  import opened Cohort
  import opened Timestamp

  const SLASH_TEXT: seq<Byte> := [47]

  predicate NoSlash(s: seq<int>) {
    forall i :: 0 <= i < |s| ==> s[i] != SLASH
  }

  /** `<root>/<cohort>/window=<timestamp>`, the prefix tuner and collector agree on. */
  function WindowPrefix(root: seq<Byte>, cohort: seq<Byte>, windowStart: nat): seq<Byte> {
    root + SLASH_TEXT + cohort + SLASH_TEXT + WINDOW_MARKER + Format(windowStart)
  }

  function ObjectKey(root: seq<Byte>, cohort: seq<Byte>, windowStart: nat, file: seq<Byte>): seq<Byte> {
    WindowPrefix(root, cohort, windowStart) + SLASH_TEXT + file
  }

  /** Stores list by whole path segments, never by a part of one. */
  predicate Lists(prefix: seq<Byte>, key: seq<Byte>) {
    Split(prefix) <= Split(key) && Split(prefix) != Split(key)
  }

  lemma {:induction false} SplitJoin(a: seq<int>, b: seq<int>)
    ensures Split(a + [SLASH] + b) == Split(a) + Split(b)
  {
    if a == [] {
      assert a + [SLASH] + b == [SLASH] + b && ([SLASH] + b)[1..] == b;
    } else {
      SplitJoin(a[1..], b);
      var s := a + [SLASH] + b;
      assert s[1..] == a[1..] + [SLASH] + b && s[0] == a[0];
      SplitStep(a[0], Split(a[1..]), Split(b));
    }
  }

  lemma SplitStep(c: int, rest: seq<seq<int>>, tail: seq<seq<int>>)
    requires rest != []
    ensures [[]] + (rest + tail) == ([[]] + rest) + tail
    ensures [[c] + (rest + tail)[0]] + (rest + tail)[1..] == ([[c] + rest[0]] + rest[1..]) + tail
  {
    assert (rest + tail)[0] == rest[0] && (rest + tail)[1..] == rest[1..] + tail;
  }

  lemma SplitPlain(s: seq<int>)
    requires NoSlash(s)
    ensures Split(s) == [s]
  {
    SplitAtFirstSlash(s, |s|);
  }

  lemma FormatNoSlash(t: nat)
    ensures NoSlash(WINDOW_MARKER + Format(t))
  {
    hide Pad, Calendar.CivilFromDays;
    var d := Calendar.CivilFromDays(DayOf(t));
    YearsStartAt1970(DayOf(t));
    PadIsDecimal(d.year, 4);
    PadIsDecimal(d.month, 2);
    PadIsDecimal(d.day, 2);
    PadIsDecimal(HourOf(t), 2);
    PadIsDecimal(MinuteOf(t), 2);
  }

  lemma PrefixSegments(root: seq<Byte>, cohort: seq<Byte>, t: nat)
    requires NoSlash(root)
    ensures Split(WindowPrefix(root, cohort, t)) == [root] + Split(cohort) + [WINDOW_MARKER + Format(t)]
  {
    hide Split, Format;
    var w := WINDOW_MARKER + Format(t);
    FormatNoSlash(t);
    SplitPlain(root);
    SplitPlain(w);
    SplitJoin(cohort, w);
    SplitJoin(root, cohort + [SLASH] + w);
    assert WindowPrefix(root, cohort, t) == root + [SLASH] + (cohort + [SLASH] + w);
  }

  lemma KeySegments(root: seq<Byte>, cohort: seq<Byte>, t: nat, file: seq<Byte>)
    requires NoSlash(root) && NoSlash(file)
    ensures Split(ObjectKey(root, cohort, t, file)) == [root] + Split(cohort) + [WINDOW_MARKER + Format(t)] + [file]
  {
    hide Split, Format, WindowPrefix;
    PrefixSegments(root, cohort, t);
    SplitPlain(file);
    SplitJoin(WindowPrefix(root, cohort, t), file);
  }

  lemma {:induction false} SplitInjective(a: seq<int>, b: seq<int>)
    requires Split(a) == Split(b)
    ensures a == b
  {
    if a != [] && b != [] {
      var ra, rb := Split(a[1..]), Split(b[1..]);
      if a[0] == SLASH {
        assert Split(a)[0] == [] && Split(a)[1..] == ra;
        assert b[0] == SLASH && Split(b)[1..] == rb;
      } else {
        assert Split(a)[0] == [a[0]] + ra[0] && Split(a)[0][1..] == ra[0] && Split(a)[1..] == ra[1..];
        assert Split(a)[0][0] == a[0];
        assert b[0] != SLASH;
        assert Split(b)[0] == [b[0]] + rb[0] && Split(b)[0][1..] == rb[0] && Split(b)[1..] == rb[1..];
        assert Split(b)[0][0] == b[0];
        assert ra == [ra[0]] + ra[1..] && rb == [rb[0]] + rb[1..];
      }
      SplitInjective(a[1..], b[1..]);
      assert a == [a[0]] + a[1..] && b == [b[0]] + b[1..];
    }
  }

  lemma CohortSegmentsAreNotWindows(cohort: seq<Byte>, k: nat)
    requires ValidName(cohort) && k < |Split(cohort)|
    ensures !StartsWith(Split(cohort)[k], WINDOW_MARKER)
  {
    SegmentsAllValid(Split(cohort));
    assert ValidateSegment(Split(cohort)[k]).Ok?;
  }

  /** Segment lists of two cohorts, each closed by a window segment, of which one starts the other:
      the window segments close them at the same place. */
  lemma WindowClosesCohort(p: seq<seq<int>>, w: seq<int>, q: seq<seq<int>>, w': seq<int>, file: seq<int>)
    requires StartsWith(w, WINDOW_MARKER) && StartsWith(w', WINDOW_MARKER)
    requires forall k :: 0 <= k < |p| ==> !StartsWith(p[k], WINDOW_MARKER)
    requires forall k :: 0 <= k < |q| ==> !StartsWith(q[k], WINDOW_MARKER)
    requires |p| <= |q| + 1 && p == (q + [w'] + [file])[..|p|] && w == (q + [w'] + [file])[|p|]
    ensures p == q && w == w'
  {
    var all := q + [w'] + [file];
    assert all[|q|] == w' && all[..|q|] == q;
    assert forall k :: 0 <= k < |q| ==> all[k] == q[k];
  }

  /** Listing the window of one cohort returns an object of another cohort or window never: a key is
      listed under a prefix exactly when it was built for that cohort and that minute. */
  lemma NamespaceIsolation(root: seq<Byte>, cohort: seq<Byte>, t: nat, cohort': seq<Byte>, t': nat, file: seq<Byte>)
    requires NoSlash(root) && NoSlash(file) && !StartsWith(file, WINDOW_MARKER)
    requires ValidName(cohort) && ValidName(cohort')
    ensures Lists(WindowPrefix(root, cohort, t), ObjectKey(root, cohort', t', file))
         <==> cohort == cohort' && t / 60 == t' / 60
  {
    hide Split, Format, WindowPrefix, ObjectKey, ValidName;
    var w, w' := WINDOW_MARKER + Format(t), WINDOW_MARKER + Format(t');
    var p, q := [root] + Split(cohort) + [w], [root] + Split(cohort') + [w'] + [file];
    PrefixSegments(root, cohort, t);
    KeySegments(root, cohort', t', file);
    FormatInjective(t, t');
    if p <= q {
      assert Split(cohort) + [w] == p[1..] && Split(cohort') + [w'] + [file] == q[1..];
      forall k | 0 <= k < |Split(cohort)| ensures !StartsWith(Split(cohort)[k], WINDOW_MARKER) {
        CohortSegmentsAreNotWindows(cohort, k);
      }
      forall k | 0 <= k < |Split(cohort')| ensures !StartsWith(Split(cohort')[k], WINDOW_MARKER) {
        CohortSegmentsAreNotWindows(cohort', k);
      }
      assert |Split(cohort)| + 1 == |p[1..]| <= |q[1..]|;
      assert (Split(cohort) + [w])[..|Split(cohort)|] == Split(cohort) && (Split(cohort) + [w])[|Split(cohort)|] == w;
      WindowClosesCohort(Split(cohort), w, Split(cohort'), w', file);
      SplitInjective(cohort, cohort');
      assert w[7..] == Format(t) && w'[7..] == Format(t');
    }
    if cohort == cohort' && t / 60 == t' / 60 {
      assert q == p + [file];
      assert p <= q;
    }
  }
}
