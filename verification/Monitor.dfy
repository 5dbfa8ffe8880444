/** A monitor merges what its collectors return into one row, and keeps a bounded history of rows. */
module Monitoring {
  import opened Options

  /** A collected dictionary; a field may be there without a value. */
  type Row<V> = map<string, Option<V>>

  datatype Output<V> = Data(row: Row<V>) | NoData | CollectionError | FatalError | UnexpectedError

  datatype Collector = Collector(fields: set<string>, optional: set<string>)

  // ----- merging -----

  /** Data of a later collector only fills what is still without a value. */
  function Merge<V>(data: Row<V>, more: Row<V>): Row<V> {
    map k | k in data.Keys + more.Keys :: if k in data && (data[k].Some? || k !in more) then data[k] else more[k]
  }

  lemma {:induction false} MergeNothing<V>(data: Row<V>, more: Row<V>)
    ensures Merge(data, more - more.Keys) == data
  {
    assert (more - more.Keys).Keys == {};
  }

  lemma {:induction false} MergeStep<V>(data: Row<V>, more: Row<V>, rest: set<string>, key: string)
    requires key in rest && rest <= more.Keys
    ensures var merged := Merge(data, more - rest);
            Merge(data, more - (rest - {key})) ==
            if key !in merged || merged[key].None? then merged[key := more[key]] else merged
  {
    var merged := Merge(data, more - rest);
    var left := more - (rest - {key});
    assert left.Keys == (more - rest).Keys + {key} && left[key] == more[key];
    var merged' := if key !in merged || merged[key].None? then merged[key := more[key]] else merged;
    forall k | k in merged'
      ensures k in Merge(data, left) && Merge(data, left)[k] == merged'[k]
    {
    }
    assert Merge(data, left).Keys == merged'.Keys;
  }

  /** The outputs up to the first fatal one, merged in order. */
  function MergeAll<V>(data: Row<V>, outputs: seq<Output<V>>): Row<V>
    decreases |outputs|
  {
    if outputs == [] || outputs[0].FatalError? then data
    else MergeAll(if outputs[0].Data? then Merge(data, outputs[0].row) else data, outputs[1..])
  }

  predicate HasFatal<V>(outputs: seq<Output<V>>) {
    exists i :: 0 <= i < |outputs| && outputs[i].FatalError?
  }

  ghost predicate Offers<V>(outputs: seq<Output<V>>, i: int, k: string) {
    0 <= i < |outputs| && outputs[i].Data? && k in outputs[i].row
  }

  /** Output i is the first to offer a value for the field. */
  ghost predicate FirstValue<V>(outputs: seq<Output<V>>, i: int, k: string) {
    && Offers(outputs, i, k) && outputs[i].row[k].Some?
    && forall j :: Offers(outputs, j, k) && j < i ==> outputs[j].row[k].None?
  }

  function First<V>(data: Row<V>, outputs: seq<Output<V>>): Row<V>
    requires outputs != []
  {
    if outputs[0].Data? then Merge(data, outputs[0].row) else data
  }

  lemma {:induction false} FatalLater<V>(outputs: seq<Output<V>>)
    requires outputs != [] && !HasFatal(outputs)
    ensures !outputs[0].FatalError? && !HasFatal(outputs[1..])
  {
    assert forall i :: 0 <= i < |outputs[1..]| ==> outputs[1..][i] == outputs[i + 1];
  }

  lemma {:induction false} MergedFields<V>(data: Row<V>, outputs: seq<Output<V>>, k: string)
    requires !HasFatal(outputs)
    ensures k in MergeAll(data, outputs) <==> k in data || exists i :: Offers(outputs, i, k)
    decreases |outputs|
  {
    if outputs != [] {
      FatalLater(outputs);
      MergedFields(First(data, outputs), outputs[1..], k);
      OffersLater(outputs, k);
      assert outputs[0].Data? && k in outputs[0].row <==> Offers(outputs, 0, k);
    }
  }

  lemma {:induction false} ValueStays<V>(data: Row<V>, outputs: seq<Output<V>>, k: string)
    requires !HasFatal(outputs) && k in data && data[k].Some?
    ensures k in MergeAll(data, outputs) && MergeAll(data, outputs)[k] == data[k]
    decreases |outputs|
  {
    if outputs != [] {
      FatalLater(outputs);
      ValueStays(First(data, outputs), outputs[1..], k);
    }
  }

  lemma {:induction false} NoValueYet<V>(data: Row<V>, outputs: seq<Output<V>>, k: string)
    requires !HasFatal(outputs) && (k in data ==> data[k].None?)
    ensures var m := MergeAll(data, outputs);
            if i :| FirstValue(outputs, i, k) then k in m && m[k] == outputs[i].row[k] else k in m ==> m[k].None?
    decreases |outputs|
  {
    if outputs != [] {
      FatalLater(outputs);
      OffersLater(outputs, k);
      var data' := First(data, outputs);
      if Offers(outputs, 0, k) && outputs[0].row[k].Some? {
        ValueStays(data', outputs[1..], k);
        assert FirstValue(outputs, 0, k);
      } else {
        NoValueYet(data', outputs[1..], k);
        assert forall i :: FirstValue(outputs[1..], i, k) ==> FirstValue(outputs, i + 1, k);
        assert forall i :: FirstValue(outputs, i, k) ==> FirstValue(outputs[1..], i - 1, k);
      }
    }
  }

  /** The merged row: it has the fields somebody offered, each with the first value offered in
      collector order, and without a value only if nobody offered one. */
  lemma {:induction false} MergeTakesFirst<V>(outputs: seq<Output<V>>, k: string)
    requires !HasFatal(outputs)
    ensures var m := MergeAll(map[], outputs);
            && (k in m <==> exists i :: Offers(outputs, i, k))
            && (forall i :: FirstValue(outputs, i, k) ==> m[k] == outputs[i].row[k])
            && (k in m && m[k].Some? ==> exists i :: FirstValue(outputs, i, k))
  {
    MergedFields(map[], outputs, k);
    NoValueYet(map[], outputs, k);
  }

  lemma {:induction false} OffersLater<V>(outputs: seq<Output<V>>, k: string)
    requires outputs != []
    ensures forall i :: Offers(outputs[1..], i, k) ==> Offers(outputs, i + 1, k) && outputs[1..][i] == outputs[i + 1]
    ensures forall i :: i > 0 && Offers(outputs, i, k) ==>
              Offers(outputs[1..], i - 1, k) && outputs[1..][i - 1] == outputs[i]
  {
  }

  // ----- the history -----

  /** Append one row, and drop the oldest if there are now more than the history length. */
  function Pushed<V>(history: seq<Row<V>>, row: Row<V>, length: nat): seq<Row<V>> {
    var longer := history + [row];
    if |longer| > length then longer[1..] else longer
  }

  function PushAll<V>(history: seq<Row<V>>, rows: seq<Row<V>>, length: nat): seq<Row<V>>
    decreases |rows|
  {
    if rows == [] then history else PushAll(Pushed(history, rows[0], length), rows[1..], length)
  }

  function Last<V>(rows: seq<Row<V>>, n: nat): seq<Row<V>> {
    if |rows| <= n then rows else rows[|rows| - n..]
  }

  lemma {:induction false} PushedLast<V>(before: seq<Row<V>>, row: Row<V>, length: nat)
    ensures Pushed(Last(before, length), row, length) == Last(before + [row], length)
  {
    if |before| > length {
      assert before[|before| - length..] + [row] == (before + [row])[|before| - length..];
    }
  }

  /** After any number of collections the history is the last rows, up to its length. */
  lemma {:induction false} HistoryIsLast<V>(before: seq<Row<V>>, rows: seq<Row<V>>, length: nat)
    ensures PushAll(Last(before, length), rows, length) == Last(before + rows, length)
    decreases |rows|
  {
    if rows == [] {
      assert before + rows == before;
    } else {
      PushedLast(before, rows[0], length);
      HistoryIsLast(before + [rows[0]], rows[1..], length);
      Rejoin(before, rows);
    }
  }

  lemma {:induction false} Rejoin<V>(before: seq<Row<V>>, rows: seq<Row<V>>)
    requires rows != []
    ensures (before + [rows[0]]) + rows[1..] == before + rows
  {
  }

  /** What one collection yields: nothing after a fatal error or with a mandatory field missing,
      and else the merged row with every optional field present. */
  function Collected<V>(fields: set<string>, optional: set<string>, outputs: seq<Output<V>>): Option<Row<V>> {
    var data := MergeAll(map[], outputs);
    if HasFatal(outputs) || !(fields <= data.Keys) then None
    else Some(map k | k in data.Keys + (optional - fields) :: if k in data then data[k] else None)
  }

  /** The rows of the successful collections, in order. */
  function Successes<V>(fields: set<string>, optional: set<string>, runs: seq<seq<Output<V>>>): seq<Row<V>> {
    if runs == [] then []
    else
      var n := |runs| - 1;
      var r := Collected(fields, optional, runs[n]);
      Successes(fields, optional, runs[..n]) + (if r.Some? then [r.value] else [])
  }

  /** Nothing went fatally wrong, and somebody offered every mandatory field. */
  ghost predicate Complete<V>(fields: set<string>, outputs: seq<Output<V>>) {
    !HasFatal(outputs) && forall k :: k in fields ==> exists i :: Offers(outputs, i, k)
  }

  /** The row has exactly the optional fields and those somebody offered. A field has the value of the
      first output that offers one, and none exactly if no output does. */
  ghost predicate IsRow<V>(optional: set<string>, outputs: seq<Output<V>>, row: Row<V>) {
    forall k: string :: FieldIs(optional, outputs, row, k)
  }

  ghost predicate FieldIs<V>(optional: set<string>, outputs: seq<Output<V>>, row: Row<V>, k: string) {
    && (k in row <==> k in optional || exists i :: Offers(outputs, i, k))
    && (forall i :: FirstValue(outputs, i, k) ==> k in row && row[k] == outputs[i].row[k])
    && (k in row ==> (row[k] == None <==> forall i :: Offers(outputs, i, k) ==> outputs[i].row[k] == None))
  }

  lemma {:induction false} SomeFirst<V>(outputs: seq<Output<V>>, i: int, k: string)
    requires Offers(outputs, i, k) && outputs[i].row[k].Some?
    ensures exists f :: FirstValue(outputs, f, k)
    decreases i
  {
    if !FirstValue(outputs, i, k) {
      var j :| Offers(outputs, j, k) && j < i && outputs[j].row[k].Some?;
      SomeFirst(outputs, j, k);
    }
  }

  /** What a collection yields, and when. */
  lemma {:induction false} CollectedIs<V>(fields: set<string>, optional: set<string>, outputs: seq<Output<V>>)
    ensures var r := Collected(fields, optional, outputs);
            && (r.Some? <==> Complete(fields, outputs))
            && (r.Some? ==> IsRow(optional, outputs, r.value) && fields <= r.value.Keys)
  {
    if !HasFatal(outputs) {
      forall k: string
        ensures k in MergeAll(map[], outputs) <==> exists i :: Offers(outputs, i, k)
      {
        MergedFields(map[], outputs, k);
      }
      var r := Collected(fields, optional, outputs);
      if r.Some? {
        forall k: string
          ensures FieldIs(optional, outputs, r.value, k)
        {
          CollectedField(fields, optional, outputs, k);
        }
      }
    }
  }

  lemma {:induction false} CollectedField<V>(fields: set<string>, optional: set<string>, outputs: seq<Output<V>>,
      k: string)
    requires Collected(fields, optional, outputs).Some?
    ensures FieldIs(optional, outputs, Collected(fields, optional, outputs).value, k)
  {
    MergeTakesFirst(outputs, k);
    if i :| Offers(outputs, i, k) && outputs[i].row[k].Some? { SomeFirst(outputs, i, k); }
  }

  /** The numbers of the collections that succeeded, in order. */
  ghost predicate Succeeded<V>(fields: set<string>, runs: seq<seq<Output<V>>>, ks: seq<nat>) {
    && (forall i, j :: 0 <= i < j < |ks| ==> ks[i] < ks[j])
    && (forall n: nat :: n in ks <==> n < |runs| && Complete(fields, runs[n]))
  }

  /** Every row in the history is that of its own successful collection. */
  lemma {:induction false} RowsInOrder<V>(fields: set<string>, optional: set<string>, runs: seq<seq<Output<V>>>)
      returns (ks: seq<nat>)
    ensures Succeeded(fields, runs, ks)
    ensures var rows := Successes(fields, optional, runs);
            && |rows| == |ks|
            && forall j :: 0 <= j < |ks| ==>
                 ks[j] < |runs| && IsRow(optional, runs[ks[j]], rows[j]) && fields <= rows[j].Keys
  {
    ks := [];
    if runs != [] {
      var n := |runs| - 1;
      ks := RowsInOrder(fields, optional, runs[..n]);
      CollectedIs(fields, optional, runs[n]);
      if Complete(fields, runs[n]) { ks := ks + [n]; }
    }
  }

  /** Every row in the history has all mandatory and optional fields. */
  lemma {:induction false} RowsComplete<V>(fields: set<string>, optional: set<string>, runs: seq<seq<Output<V>>>)
    ensures forall row :: row in Successes(fields, optional, runs) ==> fields + optional <= row.Keys
  {
    var ks := RowsInOrder(fields, optional, runs);
    var rows := Successes(fields, optional, runs);
    forall row, k | row in rows && k in optional
      ensures k in row
    {
      var j :| 0 <= j < |rows| && rows[j] == row;
      assert FieldIs(optional, runs[ks[j]], row, k);
    }
  }

  function AllFields(cs: seq<Collector>): set<string> {
    if cs == [] then {} else cs[0].fields + AllFields(cs[1..])
  }

  function AllOptional(cs: seq<Collector>): set<string> {
    if cs == [] then {} else cs[0].optional + AllOptional(cs[1..])
  }

  /** The mandatory fields are those some collector declares mandatory, the optional ones those some
      collector declares optional. */
  lemma {:induction false} FieldsAre(cs: seq<Collector>, k: string)
    ensures k in AllFields(cs) <==> exists i :: 0 <= i < |cs| && k in cs[i].fields
    ensures k in AllOptional(cs) <==> exists i :: 0 <= i < |cs| && k in cs[i].optional
  {
    if cs != [] {
      FieldsAre(cs[1..], k);
      assert forall i :: 1 <= i < |cs| ==> cs[i] == cs[1..][i - 1];
      assert forall i :: 0 <= i < |cs[1..]| ==> cs[1..][i] == cs[i + 1];
    }
  }

  class Monitor<V(==)> {
    const collectors: seq<Collector>
    const historyLength: nat
    /** What the collectors returned, collection by collection. */
    ghost var log: seq<seq<Output<V>>>
    var fields: Option<set<string>>
    var optional: Option<set<string>>
    var statistics: seq<Row<V>>
    var ready: Option<bool>
    var terminated: bool

    constructor (collectors: seq<Collector>, historyLength: nat)
      ensures this.collectors == collectors && this.historyLength == historyLength && log == [] && Valid()
    {
      this.collectors, this.historyLength := collectors, historyLength;
      fields, optional := None, None;
      statistics, ready, terminated := [], None, false;
      log := [];
    }

    /** The rows of all successful collections so far. */
    ghost function Rows(): seq<Row<V>>
      reads this
    {
      Successes(AllFields(collectors), AllOptional(collectors), log)
    }

    ghost predicate LastSucceeded()
      reads this
    {
      log != [] && Collected(AllFields(collectors), AllOptional(collectors), log[|log| - 1]).Some?
    }

    /** The field sets are filled in by the first collection and never change; the history is the
        last successful rows; ready says whether the last collection succeeded. */
    ghost predicate Valid()
      reads this
    {
      && FieldsValid()
      && statistics == Last(Rows(), historyLength)
      && ready == (if log == [] then None else Some(LastSucceeded()))
    }

    ghost predicate FieldsValid()
      reads this
    {
      && (fields.Some? ==> fields.value == AllFields(collectors))
      && (optional.Some? ==> fields.Some? && optional.value == AllOptional(collectors) - fields.value)
    }

    method PopulateFields()
      requires FieldsValid()
      modifies this`fields, this`optional
      ensures FieldsValid() && fields == Some(AllFields(collectors))
      ensures optional == Some(AllOptional(collectors) - AllFields(collectors))
    {
      if fields.None? {
        var fs: set<string> := {};
        var i := 0;
        while i < |collectors|
          invariant i <= |collectors| && fs + AllFields(collectors[i..]) == AllFields(collectors)
          invariant optional.None?
        {
          assert collectors[i..][1..] == collectors[i + 1..];
          fs := fs + collectors[i].fields;
          i := i + 1;
        }
        fields := Some(fs);
      }
      if optional.None? {
        var os: set<string> := {};
        var i := 0;
        while i < |collectors|
          invariant i <= |collectors| && os + AllOptional(collectors[i..]) == AllOptional(collectors)
          invariant fields == Some(AllFields(collectors)) && optional.None?
        {
          assert collectors[i..][1..] == collectors[i + 1..];
          os := os + collectors[i].optional;
          i := i + 1;
        }
        optional := Some(os);
      }
      optional := Some(optional.value - fields.value);
    }

    // for key, val in collected.items(): fill what has no value yet
    method MergeInto(data: Row<V>, more: Row<V>) returns (merged: Row<V>)
      ensures merged == Merge(data, more)
    {
      merged := data;
      var rest := more.Keys;
      MergeNothing(data, more);
      while rest != {}
        invariant rest <= more.Keys && merged == Merge(data, more - rest)
        decreases |rest|
      {
        var key :| key in rest;
        MergeStep(data, more, rest, key);
        if key !in merged || merged[key].None? {
          merged := merged[key := more[key]];
        }
        rest := rest - {key};
      }
      assert more - {} == more;
    }

    /** One collection: it yields the merged row exactly when it is complete, and pushes it. */
    method Collect(outputs: seq<Output<V>>) returns (r: Option<Row<V>>)
      requires Valid()
      modifies this
      ensures Valid() && log == old(log) + [outputs]
      ensures r == Collected(AllFields(collectors), AllOptional(collectors), outputs)
      ensures r.Some? <==> Complete(AllFields(collectors), outputs)
      ensures r.Some? ==> IsRow(AllOptional(collectors), outputs, r.value) && AllFields(collectors) <= r.value.Keys
      ensures terminated == (old(terminated) || HasFatal(outputs))
    {
      r := Gather(outputs);
      assert (log + [outputs])[..|log|] == log;
      log := log + [outputs];
      if r.Some? {
        PushedLast(Successes(AllFields(collectors), AllOptional(collectors), old(log)), r.value, historyLength);
        statistics := statistics + [r.value];
        if |statistics| > historyLength {
          statistics := statistics[1..];
        }
      }
      ready := Some(r.Some?);
    }

    // ask the collectors one after the other, and merge
    method Gather(outputs: seq<Output<V>>) returns (r: Option<Row<V>>)
      requires FieldsValid()
      modifies this`fields, this`optional, this`terminated
      ensures FieldsValid() && terminated == (old(terminated) || HasFatal(outputs))
      ensures r == Collected(AllFields(collectors), AllOptional(collectors), outputs)
      ensures r.Some? <==> Complete(AllFields(collectors), outputs)
      ensures r.Some? ==> IsRow(AllOptional(collectors), outputs, r.value) && AllFields(collectors) <= r.value.Keys
    {
      CollectedIs(AllFields(collectors), AllOptional(collectors), outputs);
      PopulateFields();
      var data: Row<V> := map[];
      var i := 0;
      assert outputs[0..] == outputs;
      while i < |outputs|
        invariant i <= |outputs| && MergeAll(map[], outputs) == MergeAll(data, outputs[i..])
        invariant forall j :: 0 <= j < i ==> !outputs[j].FatalError?
        invariant FieldsValid() && fields.Some? && optional.Some? && terminated == old(terminated)
      {
        assert outputs[i..][1..] == outputs[i + 1..];
        match outputs[i] {
          case Data(row) => data := MergeInto(data, row);
          case FatalError =>
            terminated := true;
            return None;
          case _ =>
        }
        i := i + 1;
      }
      if !(fields.value <= data.Keys) {
        return None;
      }
      return Some(map k | k in data.Keys + optional.value :: if k in data then data[k] else None);
    }

    /** A snapshot exists exactly if the last collection succeeded, and then it shows the last
        successful rows, as many as the history may hold, the newest last. */
    method Interrogate() returns (r: Option<seq<Row<V>>>)
      requires Valid()
      ensures r.Some? <==> LastSucceeded()
      ensures r.Some? ==> r.value == Last(Rows(), historyLength)
    {
      return if ready == Some(true) then Some(statistics) else None;
    }

    /** Any run of collections, each followed by a look at the monitor. */
    method CollectAll(runs: seq<seq<Output<V>>>) returns (snapshots: seq<Option<seq<Row<V>>>>)
      requires Valid() && log == []
      modifies this
      ensures Valid() && log == runs && |snapshots| == |runs|
      ensures forall k :: 0 <= k < |runs| ==>
                snapshots[k] ==
                SnapshotAfter(AllFields(collectors), AllOptional(collectors), runs[..k + 1], historyLength)
    {
      snapshots := [];
      while |snapshots| < |runs|
        invariant Valid() && |snapshots| <= |runs| && log == runs[..|snapshots|]
        invariant forall k :: 0 <= k < |snapshots| ==>
                    snapshots[k] ==
                    SnapshotAfter(AllFields(collectors), AllOptional(collectors), runs[..k + 1], historyLength)
      {
        var _ := Collect(runs[|snapshots|]);
        var snapshot := Interrogate();
        assert log == runs[..|snapshots| + 1];
        snapshots := snapshots + [snapshot];
      }
      assert runs[..|runs|] == runs;
    }
  }

  /** What a monitor shows after the given collections: the last rows of the successful ones, if the
      very last was one of them. */
  function SnapshotAfter<V>(fields: set<string>, optional: set<string>, runs: seq<seq<Output<V>>>, length: nat)
    : Option<seq<Row<V>>>
    requires runs != []
  {
    if Collected(fields, optional, runs[|runs| - 1]).Some?
    then Some(Last(Successes(fields, optional, runs), length)) else None
  }
  /** A snapshot exists exactly if the last collection is complete. It shows the rows of the last successful
      collections in order, as many as there are up to the history length, the newest last. */
  lemma {:induction false} SnapshotIs<V>(fields: set<string>, optional: set<string>, runs: seq<seq<Output<V>>>,
      length: nat) returns (ks: seq<nat>)
    requires runs != []
    ensures Succeeded(fields, runs, ks)
    ensures var snapshot := SnapshotAfter(fields, optional, runs, length);
            && (snapshot.Some? <==> Complete(fields, runs[|runs| - 1]))
            && (snapshot.Some? ==>
                  var n, older := |snapshot.value|, |ks| - |snapshot.value|;
                  && n == (if |ks| < length then |ks| else length)
                  && forall j :: 0 <= j < n ==>
                       ks[older + j] < |runs| && IsRow(optional, runs[ks[older + j]], snapshot.value[j]))
  {
    ks := RowsInOrder(fields, optional, runs);
    CollectedIs(fields, optional, runs[|runs| - 1]);
    LastAt(Successes(fields, optional, runs), length);
  }

  lemma {:induction false} LastAt<V>(rows: seq<Row<V>>, n: nat)
    ensures |Last(rows, n)| == if |rows| < n then |rows| else n
    ensures forall j :: 0 <= j < |Last(rows, n)| ==> Last(rows, n)[j] == rows[|rows| - |Last(rows, n)| + j]
  {
  }
}
