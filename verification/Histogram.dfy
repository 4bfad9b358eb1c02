/** Cumulative histograms kept in hashes and rendered for Prometheus (app/services/backup_observability.py; "Text
    exposition format", version 0.0.4). A label set is its serialised key. */
module Histogram {
  import opened Basics
  import opened Text

  // ----- bucket fields -----

  const SEPARATOR := "|le="
  const INFINITY := "+Inf"

  /** An upper bound and how Python prints it. */
  datatype Bound = Bound(value: real, text: string)

  function Field(labels: string, le: string): string {
    labels + SEPARATOR + le
  }

  /** `field.rsplit("|le=", 1)`, searching backwards from `i`; None if the separator does not occur. */
  function SplitLast(field: string, i: nat): Option<(string, string)>
    requires i <= |field|
  {
    if OccursAt(field, SEPARATOR, i) then Some((field[..i], field[i + |SEPARATOR|..]))
    else if i == 0 then None
    else SplitLast(field, i - 1)
  }

  function RSplit(field: string): Option<(string, string)> {
    SplitLast(field, |field|)
  }

  lemma NoSepAfter(labels: string, le: string, i: nat)
    requires '|' !in le && |labels| < i <= |Field(labels, le)|
    ensures !OccursAt(Field(labels, le), SEPARATOR, i)
  {
    var field := Field(labels, le);
    if i < |field| {
      assert field[i] == (SEPARATOR + le)[i - |labels|];
      assert field[i] != '|' == SEPARATOR[0];
    }
  }

  lemma {:induction false} SplitFrom(labels: string, le: string, i: nat)
    requires '|' !in le && |labels| <= i <= |Field(labels, le)|
    ensures SplitLast(Field(labels, le), i) == Some((labels, le))
  {
    var field := Field(labels, le);
    if i > |labels| {
      NoSepAfter(labels, le, i);
      SplitFrom(labels, le, i - 1);
    } else {
      assert field[i..i + |SEPARATOR|] == SEPARATOR && field[..i] == labels && field[i + |SEPARATOR|..] == le;
    }
  }

  /** Splitting a stored field on the last separator recovers label key and bound, even if a label contains the
      separator. */
  lemma SplitRecovers(labels: string, le: string)
    requires '|' !in le
    ensures RSplit(Field(labels, le)) == Some((labels, le))
  {
    SplitFrom(labels, le, |Field(labels, le)|);
  }

  lemma {:induction false} SplitLastJoins(field: string, i: nat)
    requires i <= |field| && SplitLast(field, i).Some?
    ensures var (labels, le) := SplitLast(field, i).value; Field(labels, le) == field
  {
    if OccursAt(field, SEPARATOR, i) {
      assert field == field[..i] + field[i..i + |SEPARATOR|] + field[i + |SEPARATOR|..];
    } else {
      SplitLastJoins(field, i - 1);
    }
  }

  /** Different label keys or bounds never share a field. */
  lemma FieldsDiffer(a: string, le: string, b: string, le': string)
    requires '|' !in le && '|' !in le'
    ensures Field(a, le) == Field(b, le') <==> a == b && le == le'
  {
    SplitRecovers(a, le);
    SplitRecovers(b, le');
  }

  // ----- the stored hashes -----

  datatype Store = Store(buckets: map<string, nat>, counts: map<string, nat>, sums: map<string, real>)

  const EMPTY := Store(map[], map[], map[])

  function Get(hash: map<string, nat>, key: string): nat {
    if key in hash then hash[key] else 0
  }

  function GetSum(hash: map<string, real>, key: string): real {
    if key in hash then hash[key] else 0.0
  }

  function Increment(hash: map<string, nat>, key: string): map<string, nat> {
    hash[key := Get(hash, key) + 1]
  }

  /** The buckets after the bounds from the first have been looked at. */
  function AddToBuckets(buckets: map<string, nat>, labels: string, value: real, bounds: seq<Bound>): map<string, nat> {
    if bounds == [] then buckets
    else
      var before, b := AddToBuckets(buckets, labels, value, bounds[..|bounds| - 1]), bounds[|bounds| - 1];
      if value <= b.value then Increment(before, Field(labels, b.text)) else before
  }

  /** One observation; negative values are ignored. */
  function Observe(s: Store, labels: string, value: real, bounds: seq<Bound>): Store {
    if value < 0.0 || bounds == [] then s
    else
      Store(Increment(AddToBuckets(s.buckets, labels, value, bounds), Field(labels, INFINITY)),
            Increment(s.counts, labels), s.sums[labels := GetSum(s.sums, labels) + value])
  }

  class Redis {
    var buckets: map<string, nat>
    var counts: map<string, nat>
    var sums: map<string, real>

    function Stored(): Store
      reads this
    {
      Store(buckets, counts, sums)
    }

    method ObserveHistogram(labels: string, value: real, bounds: seq<Bound>)
      modifies this
      ensures Stored() == Observe(old(Stored()), labels, value, bounds)
    {
      if bounds == [] || value < 0.0 {
        return;
      }
      sums := sums[labels := GetSum(sums, labels) + value];
      counts := Increment(counts, labels);
      ghost var before := buckets;
      for i := 0 to |bounds|
        invariant buckets == AddToBuckets(before, labels, value, bounds[..i])
        invariant counts == Increment(old(counts), labels)
        invariant sums == old(sums)[labels := GetSum(old(sums), labels) + value]
      {
        assert bounds[..i + 1][..i] == bounds[..i];
        if value <= bounds[i].value {
          buckets := Increment(buckets, Field(labels, bounds[i].text));
        }
      }
      assert bounds[..|bounds|] == bounds;
      buckets := Increment(buckets, Field(labels, INFINITY));
    }

    /** The bucket of each label key and bound, read back from the fields; other fields are skipped. */
    method ReadBuckets() returns (read: map<(string, string), nat>)
      ensures forall labels, le :: (labels, le) in read <==>
                Field(labels, le) in buckets && RSplit(Field(labels, le)) == Some((labels, le))
      ensures forall labels, le :: (labels, le) in read ==> read[(labels, le)] == buckets[Field(labels, le)]
    {
      read := map[];
      var fields := buckets.Keys;
      while fields != {}
        invariant fields <= buckets.Keys
        invariant forall labels, le :: (labels, le) in read <==>
                    Field(labels, le) in buckets.Keys - fields && RSplit(Field(labels, le)) == Some((labels, le))
        invariant forall labels, le :: (labels, le) in read ==> read[(labels, le)] == buckets[Field(labels, le)]
        decreases |fields|
      {
        var field :| field in fields;
        fields := fields - {field};
        var split := RSplit(field);
        if split.Some? {
          SplitLastJoins(field, |field|);
          read := read[split.value := buckets[field]];
        }
      }
    }

    /** The bucket lines of one label key: each bound in order, then +Inf. */
    method RenderHistogram(bounds: seq<Bound>, labels: string) returns (values: seq<nat>)
      requires GoodBounds(bounds)
      ensures values == RenderBuckets(Stored(), bounds, labels) + [Get(buckets, Field(labels, INFINITY))]
    {
      var read := ReadBuckets();
      values := [];
      for i := 0 to |bounds|
        invariant values == RenderBuckets(Stored(), bounds[..i], labels)
      {
        assert bounds[..i + 1][..i] == bounds[..i];
        var key := (labels, bounds[i].text);
        SplitRecovers(labels, bounds[i].text);
        values := values + [if key in read then read[key] else 0];
      }
      assert bounds[..|bounds|] == bounds;
      SplitRecovers(labels, INFINITY);
      var last := (labels, INFINITY);
      values := values + [if last in read then read[last] else 0];
    }
  }

  // ----- the specification -----

  datatype Observation = Observation(labels: string, value: real)

  /** How many counted observations of a label key are at or below a bound; None stands for infinity. */
  function CountUpTo(history: seq<Observation>, labels: string, bound: Option<real>): nat {
    if history == [] then 0
    else
      var o := history[|history| - 1];
      CountUpTo(history[..|history| - 1], labels, bound) +
        if o.labels == labels && o.value >= 0.0 && (bound.None? || o.value <= bound.value) then 1 else 0
  }

  function Total(history: seq<Observation>, labels: string): real {
    if history == [] then 0.0
    else
      var o := history[|history| - 1];
      Total(history[..|history| - 1], labels) + if o.labels == labels && o.value >= 0.0 then o.value else 0.0
  }

  function StoreOf(history: seq<Observation>, bounds: seq<Bound>): Store {
    if history == [] then EMPTY
    else
      var o := history[|history| - 1];
      Observe(StoreOf(history[..|history| - 1], bounds), o.labels, o.value, bounds)
  }

  /** No printed bound holds a bar, none is printed like another or like infinity. */
  predicate GoodBounds(bounds: seq<Bound>) {
    && bounds != []
    && (forall i :: 0 <= i < |bounds| ==> '|' !in bounds[i].text && bounds[i].text != INFINITY)
    && forall i, j :: 0 <= i < j < |bounds| ==> bounds[i].text != bounds[j].text
  }

  // The four tables of the service, in its order.

  const TASK_DURATION := [Bound(1.0, "1"), Bound(2.0, "2"), Bound(5.0, "5"), Bound(10.0, "10"), Bound(20.0, "20"),
    Bound(30.0, "30"), Bound(60.0, "60"), Bound(120.0, "120"), Bound(300.0, "300"), Bound(600.0, "600"),
    Bound(1200.0, "1200")]

  const SCRIPT_DURATION := [Bound(0.5, "0.5"), Bound(1.0, "1"), Bound(2.0, "2"), Bound(5.0, "5"), Bound(10.0, "10"),
    Bound(20.0, "20"), Bound(30.0, "30"), Bound(60.0, "60"), Bound(120.0, "120"), Bound(300.0, "300"),
    Bound(600.0, "600"), Bound(1200.0, "1200")]

  const PRECHECK_DURATION := [Bound(0.05, "0.05"), Bound(0.1, "0.1"), Bound(0.2, "0.2"), Bound(0.5, "0.5"),
    Bound(1.0, "1"), Bound(2.0, "2"), Bound(5.0, "5"), Bound(10.0, "10"), Bound(20.0, "20"), Bound(30.0, "30")]

  const JUMP_HOST_WAIT := [Bound(0.05, "0.05"), Bound(0.1, "0.1"), Bound(0.2, "0.2"), Bound(0.5, "0.5"),
    Bound(1.0, "1"), Bound(2.0, "2"), Bound(5.0, "5"), Bound(10.0, "10"), Bound(20.0, "20"), Bound(30.0, "30"),
    Bound(60.0, "60"), Bound(120.0, "120"), Bound(180.0, "180"), Bound(300.0, "300")]

  lemma TaskDurationIsGood()
    ensures GoodBounds(TASK_DURATION)
  {
  }

  lemma ScriptDurationIsGood()
    ensures GoodBounds(SCRIPT_DURATION)
  {
  }

  lemma PrecheckDurationIsGood()
    ensures GoodBounds(PRECHECK_DURATION)
  {
  }

  lemma JumpHostWaitIsGood()
    ensures GoodBounds(JUMP_HOST_WAIT)
  {
  }

  lemma {:induction false} BoundsAdd(buckets: map<string, nat>, labels: string, value: real, bounds: seq<Bound>,
                                     key: string, le: string)
    requires '|' !in le && forall i :: 0 <= i < |bounds| ==> '|' !in bounds[i].text
    requires forall i, j :: 0 <= i < j < |bounds| ==> bounds[i].text != bounds[j].text
    ensures Get(AddToBuckets(buckets, labels, value, bounds), Field(key, le)) == Get(buckets, Field(key, le)) +
              if key == labels && exists i :: 0 <= i < |bounds| && bounds[i].text == le && value <= bounds[i].value
              then 1 else 0
  {
    if bounds != [] {
      var before, b := bounds[..|bounds| - 1], bounds[|bounds| - 1];
      BoundsAdd(buckets, labels, value, before, key, le);
      FieldsDiffer(labels, b.text, key, le);
    }
  }

  lemma NoSuchBound(bounds: seq<Bound>, value: real)
    requires GoodBounds(bounds)
    ensures !exists i :: 0 <= i < |bounds| && bounds[i].text == INFINITY && value <= bounds[i].value
  {
  }

  /** One observation adds one to the bucket of each bound it does not exceed, and to no other field. */
  lemma ObserveBucket(s: Store, labels: string, value: real, bounds: seq<Bound>, key: string, i: nat)
    requires GoodBounds(bounds) && i < |bounds| && value >= 0.0
    ensures Get(Observe(s, labels, value, bounds).buckets, Field(key, bounds[i].text)) ==
              Get(s.buckets, Field(key, bounds[i].text)) + if key == labels && value <= bounds[i].value then 1 else 0
  {
    var le := bounds[i].text;
    BoundsAdd(s.buckets, labels, value, bounds, key, le);
    FieldsDiffer(labels, INFINITY, key, le);
  }

  lemma ObserveInfinity(s: Store, labels: string, value: real, bounds: seq<Bound>, key: string)
    requires GoodBounds(bounds) && value >= 0.0
    ensures Get(Observe(s, labels, value, bounds).buckets, Field(key, INFINITY)) ==
              Get(s.buckets, Field(key, INFINITY)) + if key == labels then 1 else 0
  {
    BoundsAdd(s.buckets, labels, value, bounds, key, INFINITY);
    NoSuchBound(bounds, value);
    FieldsDiffer(labels, INFINITY, key, INFINITY);
  }

  /** After any observations, the bucket of a label key and bound holds the number of observations of that label key
      at or below the bound. */
  lemma {:induction false} BucketCounts(history: seq<Observation>, bounds: seq<Bound>, key: string, i: nat)
    requires GoodBounds(bounds) && i < |bounds|
    ensures Get(StoreOf(history, bounds).buckets, Field(key, bounds[i].text)) ==
              CountUpTo(history, key, Some(bounds[i].value))
  {
    if history != [] {
      var before, o := history[..|history| - 1], history[|history| - 1];
      BucketCounts(before, bounds, key, i);
      if o.value >= 0.0 {
        ObserveBucket(StoreOf(before, bounds), o.labels, o.value, bounds, key, i);
      }
    }
  }

  /** The +Inf bucket, the count and the sum. */
  lemma {:induction false} InfinityCounts(history: seq<Observation>, bounds: seq<Bound>, key: string)
    requires GoodBounds(bounds)
    ensures var s := StoreOf(history, bounds);
            && Get(s.buckets, Field(key, INFINITY)) == CountUpTo(history, key, None)
            && Get(s.counts, key) == CountUpTo(history, key, None)
            && GetSum(s.sums, key) == Total(history, key)
  {
    if history != [] {
      var before, o := history[..|history| - 1], history[|history| - 1];
      InfinityCounts(before, bounds, key);
      if o.value >= 0.0 {
        ObserveInfinity(StoreOf(before, bounds), o.labels, o.value, bounds, key);
      }
    }
  }

  lemma {:induction false} CountsGrow(history: seq<Observation>, key: string, a: real, b: real)
    requires a <= b
    ensures CountUpTo(history, key, Some(a)) <= CountUpTo(history, key, Some(b)) <= CountUpTo(history, key, None)
  {
    if history != [] {
      CountsGrow(history[..|history| - 1], key, a, b);
    }
  }

  // ----- the rendered page -----

  /** The bucket values of one label key as rendered: each bound in order, then +Inf. */
  function RenderBuckets(s: Store, bounds: seq<Bound>, key: string): seq<nat> {
    if bounds == [] then []
    else
      var before, b := bounds[..|bounds| - 1], bounds[|bounds| - 1];
      RenderBuckets(s, before, key) + [Get(s.buckets, Field(key, b.text))]
  }

  lemma {:induction false} RenderedAt(s: Store, bounds: seq<Bound>, key: string, i: nat)
    requires i < |bounds|
    ensures |RenderBuckets(s, bounds, key)| == |bounds|
    ensures RenderBuckets(s, bounds, key)[i] == Get(s.buckets, Field(key, bounds[i].text))
  {
    var before := bounds[..|bounds| - 1];
    if i < |before| {
      RenderedAt(s, before, key, i);
    } else if before != [] {
      RenderedAt(s, before, key, 0);
    }
  }

  /** Rendered buckets never decrease as the bound grows, and none exceeds the +Inf bucket, which is the count. */
  lemma Cumulative(history: seq<Observation>, bounds: seq<Bound>, key: string, i: nat, j: nat)
    requires GoodBounds(bounds) && i < |bounds| && j < |bounds| && bounds[i].value <= bounds[j].value
    ensures var s := StoreOf(history, bounds);
            var rendered := RenderBuckets(s, bounds, key);
            && |rendered| == |bounds| && rendered[i] == CountUpTo(history, key, Some(bounds[i].value))
            && rendered[i] <= rendered[j] <= Get(s.buckets, Field(key, INFINITY)) == Get(s.counts, key)
  {
    var s := StoreOf(history, bounds);
    RenderedAt(s, bounds, key, i);
    RenderedAt(s, bounds, key, j);
    BucketCounts(history, bounds, key, i);
    BucketCounts(history, bounds, key, j);
    InfinityCounts(history, bounds, key);
    CountsGrow(history, key, bounds[i].value, bounds[j].value);
  }
}
