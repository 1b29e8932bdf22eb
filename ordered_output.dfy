/** The averager's result, an `OrderedDict` from minute label to mean, as a
    sequence of entries in insertion order. */
module OrderedOutput {

  /** The key `timestamp.strftime("%Y-%m-%d %H") + ':' + str(every_minute) + ':00'`:
      the date and hour of an event (`HourStamp`) and the walk's minute
      counter, which is written without padding and never reduced modulo 60. */
  datatype Label = Label(hourStamp: int, minute: int)

  datatype Entry = Entry(key: Label, value: real)

  function Keys(d: seq<Entry>): set<Label>
  {
    set i | 0 <= i < |d| :: d[i].key
  }

  predicate DistinctKeys(d: seq<Entry>)
  {
    forall i, j :: 0 <= i < j < |d| ==> d[i].key != d[j].key
  }

  /** `d[k] = v` on an `OrderedDict`: the entry with key `k` takes the new
      value in place, or a new entry is added at the end. */
  function Put(d: seq<Entry>, k: Label, v: real): (r: seq<Entry>)
    ensures |d| <= |r| <= |d| + 1
  {
    if d == [] then [Entry(k, v)]
    else if d[0].key == k then [Entry(k, v)] + d[1..]
    else [d[0]] + Put(d[1..], k, v)
  }

  /** A key not yet present is added at the end. */
  lemma {:induction false} PutAppendsNew(d: seq<Entry>, k: Label, v: real)
    requires k !in Keys(d)
    ensures Put(d, k, v) == d + [Entry(k, v)]
  {
    if d != [] {
      assert d[0].key != k;
      forall i | 0 <= i < |d[1..]| ensures d[1..][i].key != k {
        assert d[1..][i] == d[i + 1];
      }
      PutAppendsNew(d[1..], k, v);
      assert d == [d[0]] + d[1..];
    }
  }

  /** A key already present keeps its place: the length and every key stay. */
  lemma {:induction false} PutKeepsPresent(d: seq<Entry>, k: Label, v: real)
    requires k in Keys(d)
    ensures |Put(d, k, v)| == |d|
    ensures forall i :: 0 <= i < |d| ==> Put(d, k, v)[i].key == d[i].key
  {
    if d[0].key != k {
      assert k in Keys(d[1..]) by {
        var i :| 0 <= i < |d| && d[i].key == k;
        assert i > 0 && d[1..][i - 1].key == k;
      }
      PutKeepsPresent(d[1..], k, v);
    }
  }

  /** The keys after `d[k] = v` are the old ones and `k`. */
  lemma {:induction false} PutKeys(d: seq<Entry>, k: Label, v: real)
    ensures Keys(Put(d, k, v)) == Keys(d) + {k}
  {
    var r := Put(d, k, v);
    if k in Keys(d) {
      PutKeepsPresent(d, k, v);
      forall x | x in Keys(d) ensures x in Keys(r) {
        var i :| 0 <= i < |d| && d[i].key == x;
        assert r[i].key == x;
      }
      forall x | x in Keys(r) ensures x in Keys(d) {
        var i :| 0 <= i < |r| && r[i].key == x;
        assert d[i].key == x;
      }
    } else {
      PutAppendsNew(d, k, v);
      assert r[|d|].key == k;
      forall x | x in Keys(d) ensures x in Keys(r) {
        var i :| 0 <= i < |d| && d[i].key == x;
        assert r[i].key == x;
      }
      forall x | x in Keys(r) ensures x in Keys(d) + {k} {
        var i :| 0 <= i < |r| && r[i].key == x;
        if i < |d| { assert d[i].key == x; }
      }
    }
  }

  /** With distinct keys, `d[k] = v` gives `k` the value `v`, leaves every other
      value as it was, and keeps the keys distinct. */
  lemma {:induction false} PutValues(d: seq<Entry>, k: Label, v: real)
    requires DistinctKeys(d)
    ensures var r := Put(d, k, v);
            && DistinctKeys(r)
            && forall i :: 0 <= i < |d| ==> r[i].value == if d[i].key == k then v else d[i].value
  {
    if d != [] && d[0].key != k {
      PutValues(d[1..], k, v);
      var t := Put(d[1..], k, v);
      var r := Put(d, k, v);
      assert r == [d[0]] + t;
      PutKeys(d[1..], k, v);
      forall i | 0 <= i < |d[1..]| ensures d[1..][i].key != d[0].key {
        assert d[1..][i] == d[i + 1];
      }
      forall i | 0 < i < |r| ensures r[i].key != r[0].key {
        assert r[i].key == t[i - 1].key && t[i - 1].key in Keys(t);
      }
    } else if d != [] {
      var r := Put(d, k, v);
      forall i | 0 < i < |r| ensures r[i].key != k {
        assert r[i] == d[i] && d[i].key != d[0].key;
      }
    }
  }

  /** A key whose minute is above every minute in `d` is new to `d`. */
  lemma {:induction false} FreshMinute(d: seq<Entry>, k: Label)
    requires forall i :: 0 <= i < |d| ==> d[i].key.minute < k.minute
    ensures k !in Keys(d)
  {
  }
}
