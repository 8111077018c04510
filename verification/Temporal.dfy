/** A discrete source's cadence: record anchors, file anchors, and which record of which
    file an anchor is. */
module Temporal {
  import opened Wrappers
  import opened Calendar

  datatype SourceTemporal = SourceTemporal(
    start: DateTime,
    frequency: Period,
    filePeriod: Period,
    end: Option<int>,
    timeDim: string,
    recordsPerSample: int)
  {
    predicate Valid() {
      start.Valid() && frequency.Valid() && filePeriod.Valid() && (recordsPerSample == 1 || recordsPerSample == 2)
    }

    /** The record anchor at or before `t`. */
    ghost function RecordAnchor(t: int): int
      requires Valid()
    {
      frequency.Anchor(start, frequency.Floor(start, t))
    }

    ghost function NextRecordAnchor(t: int): int
      requires Valid()
    {
      frequency.Anchor(start, frequency.Floor(start, t) + 1)
    }

    ghost function FileAnchor(t: int): int
      requires Valid()
    {
      filePeriod.Anchor(start, filePeriod.Floor(start, t))
    }

    ghost function NextFileAnchor(t: int): int
      requires Valid()
    {
      filePeriod.Anchor(start, filePeriod.Floor(start, t) + 1)
    }

    /** The record number of record anchor `anchor` in the file that starts at `fileAnchor`. */
    ghost function RecordInFile(anchor: int, fileAnchor: int): int
      requires Valid()
    {
      frequency.Floor(start, anchor) - frequency.Ceil(start, fileAnchor)
    }

    /** How many record anchors the file starting at `fileAnchor` covers. */
    ghost function RecordsInFile(fileAnchor: int): int
      requires Valid()
    {
      frequency.Ceil(start, NextFileAnchor(fileAnchor)) - frequency.Ceil(start, fileAnchor)
    }

    ghost predicate IsRecordAnchor(a: int)
      requires Valid()
    {
      RecordAnchor(a) == a
    }

    ghost predicate IsFileAnchor(a: int)
      requires Valid()
    {
      FileAnchor(a) == a
    }
  }

  /** An anchor is at or before its time and the next one is after it; snapping is
      idempotent and monotone. */
  lemma RecordAnchorSnaps(s: SourceTemporal, t: int, u: int)
    requires s.Valid()
    ensures s.RecordAnchor(t) <= t < s.NextRecordAnchor(t)
    ensures s.IsRecordAnchor(s.RecordAnchor(t))
    ensures s.NextRecordAnchor(s.RecordAnchor(t)) == s.NextRecordAnchor(t)
    ensures t <= u ==> s.RecordAnchor(t) <= s.RecordAnchor(u)
    ensures s.RecordAnchor(t) < s.RecordAnchor(u) ==> s.NextRecordAnchor(t) <= s.RecordAnchor(u)
    ensures s.IsRecordAnchor(s.NextRecordAnchor(t))
  {
    hide Period.Anchor, Period.Floor;
    Snaps(s.frequency, s.start, t, u);
  }

  lemma FileAnchorSnaps(s: SourceTemporal, t: int, u: int)
    requires s.Valid()
    ensures s.FileAnchor(t) <= t < s.NextFileAnchor(t)
    ensures s.IsFileAnchor(s.FileAnchor(t))
    ensures s.NextFileAnchor(s.FileAnchor(t)) == s.NextFileAnchor(t)
    ensures t <= u ==> s.FileAnchor(t) <= s.FileAnchor(u)
    ensures s.FileAnchor(t) < s.FileAnchor(u) ==> s.NextFileAnchor(t) <= s.FileAnchor(u)
  {
    hide Period.Anchor, Period.Floor;
    Snaps(s.filePeriod, s.start, t, u);
  }

  lemma Snaps(p: Period, start: DateTime, t: int, u: int)
    requires p.Valid() && start.Valid()
    ensures var f, g := p.Floor(start, t), p.Floor(start, u);
            && p.Anchor(start, f) <= t < p.Anchor(start, f + 1)
            && p.Floor(start, p.Anchor(start, f)) == f
            && p.Floor(start, p.Anchor(start, f + 1)) == f + 1
            && (t <= u ==> p.Anchor(start, f) <= p.Anchor(start, g))
            && (p.Anchor(start, f) < p.Anchor(start, g) ==> p.Anchor(start, f + 1) <= p.Anchor(start, g))
  {
    hide Period.Anchor, Period.Floor;
    var f, g := p.Floor(start, t), p.Floor(start, u);
    IndexOfAnchor(p, start, f);
    IndexOfAnchor(p, start, f + 1);
    if t <= u {
      FloorAndCeilAreExtremal(p, start, u, f);
      Below(p, start, f, g);
    }
    if p.Anchor(start, f) < p.Anchor(start, g) {
      if g <= f { Below(p, start, g, f); }
      Below(p, start, f + 1, g);
    }
  }

  /** `a` is the latest anchor of the period at or before `t`, and `next` the one after it. */
  ghost predicate IsLatestAnchor(p: Period, start: DateTime, t: int, a: int, next: int)
    requires start.Valid()
  {
    && (exists k :: a == p.Anchor(start, k) && next == p.Anchor(start, k + 1))
    && a <= t && forall k :: p.Anchor(start, k) <= t ==> p.Anchor(start, k) <= a
  }

  /** Record anchors are the frequency's anchors and file anchors the file period's; a time
      snaps to the latest of each. */
  lemma AnchorsAreLatest(s: SourceTemporal, t: int)
    requires s.Valid()
    ensures IsLatestAnchor(s.frequency, s.start, t, s.RecordAnchor(t), s.NextRecordAnchor(t))
    ensures IsLatestAnchor(s.filePeriod, s.start, t, s.FileAnchor(t), s.NextFileAnchor(t))
    ensures s.IsRecordAnchor(t) <==> exists k :: t == s.frequency.Anchor(s.start, k)
    ensures s.IsFileAnchor(t) <==> exists k :: t == s.filePeriod.Anchor(s.start, k)
  {
    hide Period.Anchor, Period.Floor, IsLatestAnchor;
    FloorIsLatest(s.frequency, s.start, t);
    FloorIsLatest(s.filePeriod, s.start, t);
  }

  lemma FloorIsLatest(p: Period, start: DateTime, t: int)
    requires p.Valid() && start.Valid()
    ensures var f := p.Floor(start, t);
            && IsLatestAnchor(p, start, t, p.Anchor(start, f), p.Anchor(start, f + 1))
            && (p.Anchor(start, f) == t <==> exists k :: t == p.Anchor(start, k))
  {
    hide Period.Anchor, Period.Floor;
    var f := p.Floor(start, t);
    forall k | p.Anchor(start, k) <= t
      ensures p.Anchor(start, k) <= p.Anchor(start, f)
    {
      FloorAndCeilAreExtremal(p, start, t, k);
      Below(p, start, k, f);
    }
    Snaps(p, start, t, t);
    if k :| t == p.Anchor(start, k) { IndexOfAnchor(p, start, k); }
  }

  /** One half of the partition: each record anchor has a record number inside its file,
      and the pair (file anchor, record number) gives the anchor back. */
  lemma RecordOfAnchor(s: SourceTemporal, a: int)
    requires s.Valid() && s.IsRecordAnchor(a)
    ensures 0 <= s.RecordInFile(a, s.FileAnchor(a)) < s.RecordsInFile(s.FileAnchor(a))
    ensures s.frequency.Anchor(s.start, s.frequency.Ceil(s.start, s.FileAnchor(a)) + s.RecordInFile(a, s.FileAnchor(a))) == a
  {
    hide Period.Anchor, Period.Floor, Period.Ceil;
    var k, fa := s.frequency.Floor(s.start, a), s.FileAnchor(a);
    FileAnchorSnaps(s, a, a);
    FloorAndCeilAreExtremal(s.frequency, s.start, fa, k);
    FloorAndCeilAreExtremal(s.frequency, s.start, s.NextFileAnchor(fa), k);
  }

  /** The other half: every record number below a file's count is the record of exactly one
      anchor of that file. */
  lemma AnchorOfRecord(s: SourceTemporal, fa: int, r: int) returns (a: int)
    requires s.Valid() && s.IsFileAnchor(fa) && 0 <= r < s.RecordsInFile(fa)
    ensures s.IsRecordAnchor(a) && s.FileAnchor(a) == fa && s.RecordInFile(a, fa) == r
    ensures forall b :: s.IsRecordAnchor(b) && s.FileAnchor(b) == fa && s.RecordInFile(b, fa) == r ==> b == a
  {
    hide Period.Anchor, Period.Floor, Period.Ceil;
    var k := s.frequency.Ceil(s.start, fa) + r;
    a := s.frequency.Anchor(s.start, k);
    IndexOfAnchor(s.frequency, s.start, k);
    FloorAndCeilAreExtremal(s.frequency, s.start, fa, k);
    FloorAndCeilAreExtremal(s.frequency, s.start, s.NextFileAnchor(fa), k);
    var j := s.filePeriod.Floor(s.start, fa);
    FloorAndCeilAreExtremal(s.filePeriod, s.start, a, j);
    assert s.filePeriod.IsFloor(s.start, a, j);
  }

  /** Records are consecutive: the next anchor is the next record of the same file, or
      record 0 of a later one. */
  lemma RecordsAreConsecutive(s: SourceTemporal, a: int)
    requires s.Valid() && s.IsRecordAnchor(a)
    ensures var b := s.NextRecordAnchor(a);
            if s.FileAnchor(b) == s.FileAnchor(a)
            then s.RecordInFile(b, s.FileAnchor(b)) == s.RecordInFile(a, s.FileAnchor(a)) + 1
            else s.RecordInFile(b, s.FileAnchor(b)) == 0 && s.FileAnchor(a) < s.FileAnchor(b)
                 && s.RecordInFile(a, s.FileAnchor(a)) == s.RecordsInFile(s.FileAnchor(a)) - 1
  {
    hide Period.Anchor, Period.Floor, Period.Ceil;
    var k, b := s.frequency.Floor(s.start, a), s.NextRecordAnchor(a);
    IndexOfAnchor(s.frequency, s.start, k + 1);
    RecordAnchorSnaps(s, a, b);
    FileAnchorSnaps(s, a, b);
    FileAnchorSnaps(s, b, b);
    if s.FileAnchor(b) != s.FileAnchor(a) {
      var fa, fb := s.FileAnchor(a), s.FileAnchor(b);
      var na := s.NextFileAnchor(a);
      FloorAndCeilAreExtremal(s.frequency, s.start, fb, k);
      FloorAndCeilAreExtremal(s.frequency, s.start, fb, k + 1);
      FloorAndCeilAreExtremal(s.frequency, s.start, na, k);
      FloorAndCeilAreExtremal(s.frequency, s.start, na, k + 1);
    }
  }

  /** `_record_anchors`: exactly the record anchors in [lower, upper), in order. */
  method RecordAnchors(s: SourceTemporal, lower: int, upper: int) returns (out: seq<int>)
    requires s.Valid()
    ensures forall i, j :: 0 <= i < j < |out| ==> out[i] < out[j]
    ensures forall a :: a in out <==> s.IsRecordAnchor(a) && lower <= a < upper
  {
    hide Period.Anchor, Period.Floor, Period.Ceil;
    var f, _ := FloorIndex(s.frequency, s.start, lower);
    var k := if s.frequency.Anchor(s.start, f) == lower then f else f + 1;
    out := Listed(s.frequency, s.start, k, upper);
    forall a
      ensures a in out <==> s.IsRecordAnchor(a) && lower <= a < upper
    {
      if s.IsRecordAnchor(a) && lower <= a < upper {
        AnchorIsListed(s, lower, f, k, a);
        assert s.frequency.Anchor(s.start, s.frequency.Floor(s.start, a)) in out;
      }
      if a in out {
        var i :| 0 <= i < |out| && out[i] == a;
        ListedIsAnchor(s, lower, f, k, k + i);
      }
    }
  }

  /** The first listed index is the floor of the lower bound, or the next if that is before it. */
  ghost predicate FirstIndex(s: SourceTemporal, lower: int, f: int, k: int)
    requires s.Valid()
  {
    f == s.frequency.Floor(s.start, lower) && k == if s.frequency.Anchor(s.start, f) == lower then f else f + 1
  }

  lemma AnchorIsListed(s: SourceTemporal, lower: int, f: int, k: int, a: int)
    requires s.Valid() && FirstIndex(s, lower, f, k) && s.IsRecordAnchor(a) && lower <= a
    ensures k <= s.frequency.Floor(s.start, a) && s.frequency.Anchor(s.start, s.frequency.Floor(s.start, a)) == a
  {
    hide Period.Anchor, Period.Floor, Period.Ceil;
    FloorAndCeilAreExtremal(s.frequency, s.start, lower, s.frequency.Floor(s.start, a));
    FloorAndCeilAreExtremal(s.frequency, s.start, a, f);
    FloorAndCeilAreExtremal(s.frequency, s.start, lower, f);
  }

  lemma ListedIsAnchor(s: SourceTemporal, lower: int, f: int, k: int, j: int)
    requires s.Valid() && FirstIndex(s, lower, f, k) && k <= j
    ensures s.IsRecordAnchor(s.frequency.Anchor(s.start, j)) && lower <= s.frequency.Anchor(s.start, j)
  {
    hide Period.Anchor, Period.Floor, Period.Ceil;
    IndexOfAnchor(s.frequency, s.start, j);
    FloorAndCeilAreExtremal(s.frequency, s.start, lower, k);
    Below(s.frequency, s.start, k, j);
  }

  /** `_file_anchors`: the file anchors from the one at or before `lower`, below `upper`. */
  method FileAnchors(s: SourceTemporal, lower: int, upper: int) returns (out: seq<int>)
    requires s.Valid()
    ensures forall i, j :: 0 <= i < j < |out| ==> out[i] < out[j]
    ensures forall a :: a in out <==> s.IsFileAnchor(a) && s.FileAnchor(lower) <= a < upper
    ensures forall t :: lower <= t < upper ==> s.FileAnchor(t) in out
  {
    hide Period.Anchor, Period.Floor, Period.Ceil;
    var k, _ := FloorIndex(s.filePeriod, s.start, lower);
    out := Listed(s.filePeriod, s.start, k, upper);
    forall a
      ensures a in out <==> s.IsFileAnchor(a) && s.FileAnchor(lower) <= a < upper
    {
      var ka := s.filePeriod.Floor(s.start, a);
      if s.IsFileAnchor(a) && s.FileAnchor(lower) <= a < upper {
        FloorAndCeilAreExtremal(s.filePeriod, s.start, a, k);
        assert ka >= k;
        assert s.filePeriod.Anchor(s.start, ka) in out;
      }
      if a in out {
        var i :| 0 <= i < |out| && out[i] == a;
        IndexOfAnchor(s.filePeriod, s.start, k + i);
        Below(s.filePeriod, s.start, k, k + i);
      }
    }
    forall t | lower <= t < upper
      ensures s.FileAnchor(t) in out
    {
      FileAnchorSnaps(s, lower, t);
      FileAnchorSnaps(s, t, t);
    }
  }

  /** The enumeration loop both share: anchors `k`, `k + 1`, ... while below `upper`. */
  method Listed(p: Period, start: DateTime, k: int, upper: int) returns (out: seq<int>)
    requires p.Valid() && start.Valid()
    ensures forall i :: 0 <= i < |out| ==> out[i] == p.Anchor(start, k + i)
    ensures forall i :: 0 <= i < |out| ==> out[i] < upper
    ensures forall i, j :: 0 <= i < j < |out| ==> out[i] < out[j]
    ensures forall j :: k <= j && p.Anchor(start, j) < upper ==> p.Anchor(start, j) in out
  {
    hide Period.Anchor;
    out := [];
    var anchor := p.Anchor(start, k);
    while anchor < upper
      invariant anchor == p.Anchor(start, k + |out|)
      invariant forall i :: 0 <= i < |out| ==> out[i] == p.Anchor(start, k + i)
      invariant forall i :: 0 <= i < |out| ==> out[i] < upper
      decreases upper - anchor
    {
      AnchorsIncrease(p, start, k + |out|, k + |out| + 1);
      out := out + [anchor];
      anchor := p.Anchor(start, k + |out|);
    }
    forall i, j | 0 <= i < j < |out|
      ensures out[i] < out[j]
    {
      AnchorsIncrease(p, start, k + i, k + j);
    }
    forall j | k <= j && p.Anchor(start, j) < upper
      ensures p.Anchor(start, j) in out
    {
      if j - k < |out| { assert out[j - k] == p.Anchor(start, j); }
      else { Below(p, start, k + |out|, j); }
    }
  }

  /** What a source declares of the records in its first file: nothing, that they be counted,
      a number, or something that is none of these. */
  datatype Declared = Undeclared | Auto | Count(n: int) | NotACount

  /** A declared count is refused, with the count there is, unless it is that count. */
  method RecordsPerFile(s: SourceTemporal, declared: Declared) returns (refused: Option<int>)
    requires s.Valid()
    ensures refused.None? <==> declared.Undeclared? || declared.Auto? || declared == Count(s.RecordsInFile(s.start.Instant()))
    ensures refused.Some? ==> refused.value == s.RecordsInFile(s.start.Instant()) >= 1
    ensures s.IsFileAnchor(s.start.Instant())
  {
    hide SourceTemporal.RecordsInFile, SourceTemporal.IsFileAnchor;
    var n := FirstFileRecords(s);
    if declared.Undeclared? || declared.Auto? || declared == Count(n) { return None; }
    return Some(n);
  }

  /** The records of the first file, counted from their indices. */
  method FirstFileRecords(s: SourceTemporal) returns (n: int)
    requires s.Valid()
    ensures n == s.RecordsInFile(s.start.Instant())
    ensures s.IsFileAnchor(s.start.Instant()) && n >= 1
  {
    hide Period.Anchor, Period.Floor, Period.Ceil;
    var st := s.start.Instant();
    StartIsAnchorZero(s.filePeriod, s.start);
    StartIsAnchorZero(s.frequency, s.start);
    var j, _ := FloorIndex(s.filePeriod, s.start, st);
    var nxt := s.filePeriod.Anchor(s.start, j + 1);
    var f, _ := FloorIndex(s.frequency, s.start, nxt);
    var g, _ := FloorIndex(s.frequency, s.start, st);
    n := (if s.frequency.Anchor(s.start, f) == nxt then f else f + 1)
       - (if s.frequency.Anchor(s.start, g) == st then g else g + 1);
    CeilFromFloor(s.frequency, s.start, nxt);
    CeilFromFloor(s.frequency, s.start, st);
    FileAnchorSnaps(s, st, st);
    FloorAndCeilAreExtremal(s.frequency, s.start, nxt, 0);
  }

  lemma StartIsAnchorZero(p: Period, start: DateTime)
    requires p.Valid() && start.Valid()
    ensures p.Anchor(start, 0) == start.Instant()
    ensures p.Floor(start, start.Instant()) == 0 == p.Ceil(start, start.Instant())
  {
    hide Period.Floor, Period.Ceil, Period.Anchor, DateTime.Instant;
    AnchorZero(p, start);
    IndexOfAnchor(p, start, 0);
  }

  lemma AnchorZero(p: Period, start: DateTime)
    requires p.Valid() && start.Valid()
    ensures p.Anchor(start, 0) == start.Instant()
  {
    hide DateTime.Instant, AddMonths;
    ZeroMonths(start);
  }

  lemma ZeroMonths(d: DateTime)
    requires d.Valid()
    ensures AddMonths(d, 0) == d
  {
    hide DateTime.Instant;
  }

  lemma CeilFromFloor(p: Period, start: DateTime, t: int)
    requires p.Valid() && start.Valid()
    ensures p.Ceil(start, t) == if p.Anchor(start, p.Floor(start, t)) == t then p.Floor(start, t) else p.Floor(start, t) + 1
  {
    hide Period.Anchor, Period.Floor;
  }
}
