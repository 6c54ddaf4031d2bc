/**
 * The part of Redis the counters use: a map from key to either a set of members or a list of
 * values, the commands SADD, SREM, RPUSH, SCARD, LRANGE, DEL and KEYS, and the type check
 * behind the WRONGTYPE error. Connection handling and the network are not modelled.
 */
module Redis {
  import opened Wrappers

  datatype Entry = Members(members: set<string>) | Items(items: seq<int>)

  type Data = map<string, Entry>

  /** Redis keeps no empty set: SREM of the last member deletes the key. */
  predicate NoEmptySets(d: Data)
  {
    forall k | k in d && d[k].Members? :: d[k].members != {}
  }

  /** The write commands used by the fan-out: SADD, SREM and RPUSH of one member or value. */
  datatype Op = Add(member: string) | Remove(member: string) | Push(item: int)

  /** The command can run on the key: the key is absent or holds the type the command needs. */
  predicate Fits(d: Data, k: string, op: Op)
  {
    k !in d || (if op.Push? then d[k].Items? else d[k].Members?)
  }

  /** Every key of ks can take the command. */
  predicate AllFit(d: Data, ks: seq<string>, op: Op)
  {
    forall k | k in ks :: Fits(d, k, op)
  }

  /** The members of a set key; an absent key reads as the empty set. */
  function MembersOf(d: Data, k: string): set<string>
  {
    if k in d && d[k].Members? then d[k].members else {}
  }

  /** The values of a list key; an absent key reads as the empty list. */
  function ItemsOf(d: Data, k: string): seq<int>
  {
    if k in d && d[k].Items? then d[k].items else []
  }

  /** One write command on one key; None is the WRONGTYPE error. */
  function Apply(d: Data, k: string, op: Op): (r: Option<Data>)
    ensures r.Some? <==> Fits(d, k, op)
    ensures r.Some? ==> forall j | j != k :: (j in r.value <==> j in d) && (j in d ==> r.value[j] == d[j])
    ensures r.Some? && NoEmptySets(d) ==> NoEmptySets(r.value)
    ensures r.Some? && op.Add? ==> k in r.value && r.value[k] == Members(MembersOf(d, k) + {op.member})
    ensures r.Some? && op.Remove? ==>
      (k in r.value <==> MembersOf(d, k) - {op.member} != {})
      && (k in r.value ==> r.value[k] == Members(MembersOf(d, k) - {op.member}))
    ensures r.Some? && op.Push? ==> k in r.value && r.value[k] == Items(ItemsOf(d, k) + [op.item])
  {
    match op
    case Add(m) =>
      if k !in d then assert MembersOf(d, k) + {m} == {m}; Some(d[k := Members({m})])
      else if d[k].Members? then Some(d[k := Members(d[k].members + {m})])
      else None
    case Remove(m) =>
      if k !in d then Some(d)
      else if d[k].Members? then
        if d[k].members - {m} == {} then Some(d - {k}) else Some(d[k := Members(d[k].members - {m})])
      else None
    case Push(v) =>
      if k !in d then assert ItemsOf(d, k) + [v] == [v]; Some(d[k := Items([v])])
      else if d[k].Items? then Some(d[k := Items(d[k].items + [v])])
      else None
  }

  /**
   * The same command on every key of ks in order, stopping at the first WRONGTYPE as a Ruby
   * loop stops when its body raises. The flag says whether every command ran; the map holds
   * whatever was written before the failure (there is no rollback).
   */
  function WriteAll(d: Data, ks: seq<string>, op: Op): (r: (Data, bool))
    decreases |ks|
  {
    if ks == [] then (d, true)
    else match Apply(d, ks[0], op)
      case None => (d, false)
      case Some(next) => WriteAll(next, ks[1..], op)
  }

  /** The first command of a fan-out: it fails, or the rest runs on what it wrote. */
  lemma WriteAllStep(d: Data, ks: seq<string>, i: int, op: Op)
    requires 0 <= i < |ks|
    ensures Apply(d, ks[i], op).None? ==> WriteAll(d, ks[i..], op) == (d, false)
    ensures Apply(d, ks[i], op).Some? ==> WriteAll(d, ks[i..], op) == WriteAll(Apply(d, ks[i], op).value, ks[i + 1..], op)
  {
    assert ks[i..][0] == ks[i] && ks[i..][1..] == ks[i + 1..];
  }

  /** SCARD; None is WRONGTYPE. */
  function SCard(d: Data, k: string): (r: Option<nat>)
    ensures r.Some? <==> k !in d || d[k].Members?
    ensures r.Some? ==> r.value == |MembersOf(d, k)|
  {
    if k !in d then Some(0)
    else if d[k].Members? then Some(|d[k].members|)
    else None
  }

  /** LRANGE key 0 -1; None is WRONGTYPE. */
  function LRange(d: Data, k: string): (r: Option<seq<int>>)
    ensures r.Some? <==> k !in d || d[k].Items?
    ensures r.Some? ==> r.value == ItemsOf(d, k)
  {
    if k !in d then Some([])
    else if d[k].Items? then Some(d[k].items)
    else None
  }

  function Occurrences(ks: seq<string>, k: string): nat
  {
    if ks == [] then 0 else (if ks[0] == k then 1 else 0) + Occurrences(ks[1..], k)
  }

  function Repeat(v: int, n: nat): (r: seq<int>)
    ensures |r| == n && forall i | 0 <= i < n :: r[i] == v
  {
    if n == 0 then [] else [v] + Repeat(v, n - 1)
  }

  lemma {:induction false} OccurrencesOfMember(ks: seq<string>, k: string)
    requires k in ks
    ensures Occurrences(ks, k) >= 1
    decreases |ks|
  {
    if ks[0] != k {
      assert k in ks[1..];
      OccurrencesOfMember(ks[1..], k);
    }
  }

  /** Keys the fan-out does not name are untouched, whatever the command and its outcome. */
  lemma {:induction false} WriteAllFrame(d: Data, ks: seq<string>, op: Op, k: string)
    requires k !in ks
    ensures (k in WriteAll(d, ks, op).0 <==> k in d)
    ensures k in d ==> WriteAll(d, ks, op).0[k] == d[k]
    decreases |ks|
  {
    if ks != [] {
      match Apply(d, ks[0], op)
      case None =>
      case Some(next) =>
        assert k !in ks[1..];
        WriteAllFrame(next, ks[1..], op, k);
    }
  }

  /** The fan-out never leaves an empty set behind. */
  lemma {:induction false} WriteAllKeepsNoEmptySets(d: Data, ks: seq<string>, op: Op)
    requires NoEmptySets(d)
    ensures NoEmptySets(WriteAll(d, ks, op).0)
    decreases |ks|
  {
    if ks != [] {
      match Apply(d, ks[0], op)
      case None =>
      case Some(next) => WriteAllKeepsNoEmptySets(next, ks[1..], op);
    }
  }

  lemma ApplyKeepsFits(d: Data, k: string, op: Op, j: string)
    requires Apply(d, k, op).Some?
    ensures Fits(Apply(d, k, op).value, j, op) <==> Fits(d, j, op)
  {
  }

  /** The fan-out runs to the end exactly when every key it names has the right type. */
  lemma {:induction false} WriteAllSucceeds(d: Data, ks: seq<string>, op: Op)
    ensures WriteAll(d, ks, op).1 <==> forall k | k in ks :: Fits(d, k, op)
    decreases |ks|
  {
    if ks != [] {
      match Apply(d, ks[0], op)
      case None =>
      case Some(next) =>
        WriteAllSucceeds(next, ks[1..], op);
        forall j { ApplyKeepsFits(d, ks[0], op, j); }
        assert forall k :: k in ks <==> k == ks[0] || k in ks[1..];
    }
  }

  /** SADD on every fan-out key: each named set gains the member. */
  lemma {:induction false} WriteAllAdd(d: Data, ks: seq<string>, m: string, k: string)
    requires WriteAll(d, ks, Add(m)).1
    requires k in ks
    ensures k in WriteAll(d, ks, Add(m)).0
    ensures WriteAll(d, ks, Add(m)).0[k] == Members(MembersOf(d, k) + {m})
    decreases |ks|
  {
    var next := Apply(d, ks[0], Add(m)).value;
    if k in ks[1..] {
      WriteAllAdd(next, ks[1..], m, k);
      assert MembersOf(next, k) + {m} == MembersOf(d, k) + {m};
    } else {
      WriteAllFrame(next, ks[1..], Add(m), k);
    }
  }

  /** After a completed SADD fan-out, a named key reads as its old members plus the member. */
  lemma WriteAllAddMembers(d: Data, ks: seq<string>, m: string, k: string)
    requires WriteAll(d, ks, Add(m)).1 && k in ks
    ensures MembersOf(WriteAll(d, ks, Add(m)).0, k) == MembersOf(d, k) + {m}
  {
    WriteAllAdd(d, ks, m, k);
  }

  /** SADD over the fan-out on an empty store runs to the end and leaves {m} in every named key. */
  lemma WriteAllAddFresh(ks: seq<string>, m: string, k: string)
    requires k in ks
    ensures WriteAll(map[], ks, Add(m)).1
    ensures k in WriteAll(map[], ks, Add(m)).0 && WriteAll(map[], ks, Add(m)).0[k] == Members({m})
  {
    WriteAllSucceeds(map[], ks, Add(m));
    WriteAllAdd(map[], ks, m, k);
    assert MembersOf(map[], k) == {};
  }

  /** SREM on every fan-out key: each named set loses the member, and is deleted if emptied. */
  lemma {:induction false} WriteAllRemove(d: Data, ks: seq<string>, m: string, k: string)
    requires WriteAll(d, ks, Remove(m)).1
    requires k in ks
    ensures k in WriteAll(d, ks, Remove(m)).0 <==> MembersOf(d, k) - {m} != {}
    ensures k in WriteAll(d, ks, Remove(m)).0 ==>
      WriteAll(d, ks, Remove(m)).0[k] == Members(MembersOf(d, k) - {m})
    decreases |ks|
  {
    var next := Apply(d, ks[0], Remove(m)).value;
    if k in ks[1..] {
      WriteAllRemove(next, ks[1..], m, k);
      assert MembersOf(next, k) - {m} == MembersOf(d, k) - {m};
    } else {
      WriteAllFrame(next, ks[1..], Remove(m), k);
    }
  }

  /** RPUSH on every fan-out key: each list gets the value once per time the key is named. */
  lemma {:induction false} WriteAllPush(d: Data, ks: seq<string>, v: int, k: string)
    requires WriteAll(d, ks, Push(v)).1
    ensures ItemsOf(WriteAll(d, ks, Push(v)).0, k) == ItemsOf(d, k) + Repeat(v, Occurrences(ks, k))
    ensures k in ks ==> k in WriteAll(d, ks, Push(v)).0 && WriteAll(d, ks, Push(v)).0[k].Items?
    decreases |ks|
  {
    if ks == [] {
      assert ItemsOf(d, k) + [] == ItemsOf(d, k);
    } else {
      var next := Apply(d, ks[0], Push(v)).value;
      WriteAllPush(next, ks[1..], v, k);
      var n := Occurrences(ks[1..], k);
      if ks[0] == k {
        assert ItemsOf(next, k) == ItemsOf(d, k) + [v];
        assert (ItemsOf(d, k) + [v]) + Repeat(v, n) == ItemsOf(d, k) + Repeat(v, n + 1);
        if k !in ks[1..] { WriteAllFrame(next, ks[1..], Push(v), k); }
      } else {
        assert ItemsOf(next, k) == ItemsOf(d, k);
      }
    }
  }

  /** An RPUSH fan-out that ran to the end leaves lists on its keys, so the next one runs too. */
  lemma PushAgainSucceeds(d: Data, ks: seq<string>, v: int, w: int)
    requires WriteAll(d, ks, Push(v)).1
    ensures WriteAll(WriteAll(d, ks, Push(v)).0, ks, Push(w)).1
  {
    var after := WriteAll(d, ks, Push(v)).0;
    forall j | j in ks ensures Fits(after, j, Push(w)) {
      WriteAllPush(d, ks, v, j);
    }
    WriteAllSucceeds(after, ks, Push(w));
  }

  /** Three RPUSH fan-outs from an empty store: each runs, and each list holds the three runs in order. */
  lemma ThreePushes(ks: seq<string>, k: string, a: int, b: int, c: int)
    requires k in ks
    ensures var n := Occurrences(ks, k);
      var e1 := WriteAll(map[], ks, Push(a));
      var e2 := WriteAll(e1.0, ks, Push(b));
      var e3 := WriteAll(e2.0, ks, Push(c));
      n >= 1 && e1.1 && e2.1 && e3.1 && ItemsOf(e3.0, k) == Repeat(a, n) + Repeat(b, n) + Repeat(c, n)
  {
    var n := Occurrences(ks, k);
    var empty: Data := map[];
    var e1 := WriteAll(empty, ks, Push(a));
    var e2 := WriteAll(e1.0, ks, Push(b));
    var e3 := WriteAll(e2.0, ks, Push(c));
    WriteAllSucceeds(empty, ks, Push(a));
    PushAgainSucceeds(empty, ks, a, b);
    PushAgainSucceeds(e1.0, ks, b, c);
    OccurrencesOfMember(ks, k);
    WriteAllPush(empty, ks, a, k);
    assert ItemsOf(empty, k) == [];
    assert ItemsOf(e1.0, k) == Repeat(a, n);
    WriteAllPush(e1.0, ks, b, k);
    WriteAllPush(e2.0, ks, c, k);
  }

  /** Running the same SADD fan-out twice is the same as running it once. */
  lemma IncrementIdempotent(d: Data, ks: seq<string>, m: string)
    requires WriteAll(d, ks, Add(m)).1
    ensures WriteAll(WriteAll(d, ks, Add(m)).0, ks, Add(m)) == WriteAll(d, ks, Add(m))
  {
    var d1 := WriteAll(d, ks, Add(m)).0;
    WriteAllSucceeds(d, ks, Add(m));
    forall k | k in ks ensures Fits(d1, k, Add(m)) { WriteAllAdd(d, ks, m, k); }
    WriteAllSucceeds(d1, ks, Add(m));
    var d2 := WriteAll(d1, ks, Add(m)).0;
    forall k ensures (k in d2 <==> k in d1) && (k in d1 ==> d2[k] == d1[k]) {
      if k in ks {
        WriteAllAdd(d, ks, m, k);
        WriteAllAdd(d1, ks, m, k);
      } else {
        WriteAllFrame(d1, ks, Add(m), k);
      }
    }
    assert d2 == d1;
  }

  /**
   * SADD then SREM of a member that none of the fan-out sets held gives back the store as it
   * was, key for key (a set created by the SADD is deleted again by the SREM).
   */
  lemma IncrementThenDecrementRestores(d: Data, ks: seq<string>, m: string)
    requires NoEmptySets(d)
    requires WriteAll(d, ks, Add(m)).1
    requires forall k | k in ks :: m !in MembersOf(d, k)
    ensures WriteAll(WriteAll(d, ks, Add(m)).0, ks, Remove(m)) == (d, true)
  {
    var d1 := WriteAll(d, ks, Add(m)).0;
    WriteAllSucceeds(d, ks, Add(m));
    forall k | k in ks ensures Fits(d1, k, Remove(m)) { WriteAllAdd(d, ks, m, k); }
    WriteAllSucceeds(d1, ks, Remove(m));
    var d2 := WriteAll(d1, ks, Remove(m)).0;
    forall k ensures (k in d2 <==> k in d) && (k in d ==> d2[k] == d[k]) {
      if k in ks {
        WriteAllAdd(d, ks, m, k);
        WriteAllRemove(d1, ks, m, k);
        assert MembersOf(d1, k) - {m} == MembersOf(d, k);
      } else {
        WriteAllFrame(d, ks, Add(m), k);
        WriteAllFrame(d1, ks, Remove(m), k);
      }
    }
    assert d2 == d;
  }

  /** The in-memory Redis database the counters write to. */
  class Store {
    var data: Data

    ghost predicate Valid()
      reads this
    {
      NoEmptySets(data)
    }

    constructor ()
      ensures Valid() && data == map[]
    {
      data := map[];
    }

    /** SADD, SREM or RPUSH; false when Redis answers WRONGTYPE. */
    method Write(k: string, op: Op) returns (ok: bool)
      requires Valid()
      modifies this
      ensures Valid()
      ensures ok == Apply(old(data), k, op).Some?
      ensures data == if ok then Apply(old(data), k, op).value else old(data)
    {
      var r := Apply(data, k, op);
      if r.Some? {
        data := r.value;
        ok := true;
      } else {
        ok := false;
      }
    }

    /** DEL */
    method Del(k: string)
      requires Valid()
      modifies this
      ensures Valid()
      ensures data == old(data) - {k}
    {
      data := data - {k};
    }
  }
}
