/**
 Session objects and the two containers that thread through them. The containers
 are library code that is not part of the repository; what is built here is the
 layer that the session fields m_nIndex, m_nKey, m_pPrev and m_pNext call for.
 */
module Intrusive {
  import opened WrappingId
  import opened ServerSpec

  /** `EN_HASH_MAP_BITES` is 16. */
  const BUCKETS: nat := 0x1_0000

  function BucketOf(key: Id): nat
    ensures BucketOf(key) < BUCKETS
  {
    key as int % BUCKETS
  }

  /** A session; `kind` is its class, which fixes the one map it can be stored in. */
  class Session {
    const kind: nat
    var sessionId: Id
    var requestId: Id
    var handler: ServiceHandler?
    var srcAddr: nat

    var index: nat
    var key: Id
    var prev: Session?
    var next: Session?

    constructor (kind: nat, requestId: Id)
      ensures this.kind == kind && this.requestId == requestId
    {
      this.kind, this.requestId := kind, requestId;
      sessionId, handler, srcAddr := 0, null, 0;
      index, key, prev, next := 0, 0, null, null;
    }
  }

  /** A connection with the sessions opened over it. */
  class ServiceHandler {
    const userSessions: TypeArray

    constructor ()
      ensures fresh(userSessions) && userSessions.Valid() && userSessions.items == []
    {
      userSessions := new TypeArray();
    }
  }

  /** `CDscTypeArray`: every element knows its own position, so erasing needs no search. */
  class TypeArray {
    var items: seq<Session>

    ghost predicate Valid()
      reads this, items`index
    {
      forall i | 0 <= i < |items| :: items[i].index == i
    }

    constructor ()
      ensures Valid() && items == []
    {
      items := [];
    }

    method Insert(s: Session)
      requires Valid() && s !in items
      modifies this, s`index
      ensures Valid() && items == old(items) + [s]
    {
      s.index := |items|;
      items := items + [s];
    }

    /** Erases exactly `s`: the element at the end moves into its place. */
    method Erase(s: Session)
      requires Valid() && s in items
      modifies this, items`index
      ensures Valid() && items == Without(old(items), s)
      ensures NoDup(old(items))
    {
      var i, n := s.index, |items| - 1;
      var last := items[n];
      items := items[i := last][..n];
      last.index := i;
    }
  }

  ghost predicate Homed(chains: seq<seq<Session>>, keyOf: map<Session, Id>, b: nat)
    requires b < |chains|
  {
    forall s | s in chains[b] :: s in keyOf && BucketOf(keyOf[s]) == b
  }

  ghost predicate Listed(chains: seq<seq<Session>>, table: map<Id, Session>, keyOf: map<Session, Id>, s: Session)
    requires |chains| == BUCKETS && s in keyOf
  {
    keyOf[s] in table && table[keyOf[s]] == s && s in chains[BucketOf(keyOf[s])]
  }

  ghost predicate Points(table: map<Id, Session>, keyOf: map<Session, Id>, k: Id)
    requires k in table
  {
    table[k] in keyOf && keyOf[table[k]] == k
  }

  /** The chains hold the sessions of the table, each in the bucket of its key. */
  ghost predicate Layout(chains: seq<seq<Session>>, table: map<Id, Session>, keyOf: map<Session, Id>) {
    && |chains| == BUCKETS
    && (forall b {:trigger Homed(chains, keyOf, b)} | 0 <= b < BUCKETS :: Homed(chains, keyOf, b))
    && (forall s {:trigger Listed(chains, table, keyOf, s)} | s in keyOf :: Listed(chains, table, keyOf, s))
    && (forall k {:trigger Points(table, keyOf, k)} | k in table :: Points(table, keyOf, k))
  }

  lemma LayoutInsert(chains: seq<seq<Session>>, table: map<Id, Session>, keyOf: map<Session, Id>, key: Id, s: Session)
    requires Layout(chains, table, keyOf) && key !in table && s !in keyOf
    ensures Layout(chains[BucketOf(key) := [s] + chains[BucketOf(key)]], table[key := s], keyOf[s := key])
  {
    var chains', table', keyOf' := chains[BucketOf(key) := [s] + chains[BucketOf(key)]], table[key := s], keyOf[s := key];
    forall b | 0 <= b < BUCKETS
      ensures Homed(chains', keyOf', b)
    {
      assert Homed(chains, keyOf, b);
    }
    forall x | x in keyOf'
      ensures Listed(chains', table', keyOf', x)
    {
      if x != s {
        assert Listed(chains, table, keyOf, x);
      }
    }
    forall k | k in table'
      ensures Points(table', keyOf', k)
    {
      if k != key {
        assert Points(table, keyOf, k);
      }
    }
  }

  lemma LayoutRemove(chains: seq<seq<Session>>, table: map<Id, Session>, keyOf: map<Session, Id>, s: Session, i: nat)
    requires Layout(chains, table, keyOf) && s in keyOf
    requires var c := chains[BucketOf(keyOf[s])]; NoDup(c) && i < |c| && c[i] == s
    ensures var b := BucketOf(keyOf[s]);
            Layout(chains[b := chains[b][..i] + chains[b][i + 1..]], table - {keyOf[s]}, keyOf - {s})
  {
    var c := chains[BucketOf(keyOf[s])];
    var d := c[..i] + c[i + 1..];
    forall x
      ensures x in d <==> x in c && x != s
    {
      if x in c && x != s {
        var j :| 0 <= j < |c| && c[j] == x;
        assert d[if j < i then j else j - 1] == x;
      }
    }
    var chains', table', keyOf' := chains[BucketOf(keyOf[s]) := d], table - {keyOf[s]}, keyOf - {s};
    assert Listed(chains, table, keyOf, s);
    forall b | 0 <= b < BUCKETS
      ensures Homed(chains', keyOf', b)
    {
      assert Homed(chains, keyOf, b);
    }
    forall x | x in keyOf'
      ensures Listed(chains', table', keyOf', x)
    {
      assert Listed(chains, table, keyOf, x);
    }
    forall k | k in table'
      ensures Points(table', keyOf', k)
    {
      assert Points(table, keyOf, k);
    }
  }

  /** `CBareHashMap`: chains of sessions linked through their own fields, one chain a bucket. */
  class BareHashMap {
    const buckets: array<Session?>
    ghost var chains: seq<seq<Session>>
    ghost var keyOf: map<Session, Id>
    ghost var Table: map<Id, Session>
    ghost var Nodes: set<Session>

    /** The node at position `i` points at both its neighbours. */
    static ghost predicate Joined(c: seq<Session>, i: nat)
      requires i < |c|
      reads c`prev, c`next
    {
      && c[i].prev == (if i == 0 then null else c[i - 1])
      && c[i].next == (if i == |c| - 1 then null else c[i + 1])
    }

    /** `c` is the doubly linked list that starts at `head`; no node occurs twice. */
    static ghost predicate Linked(head: Session?, c: seq<Session>)
      reads c`prev, c`next
    {
      && (head == if c == [] then null else c[0])
      && (forall i | 0 <= i < |c| :: Joined(c, i))
      && NoDup(c)
    }

    ghost predicate Valid()
      reads this, buckets, Nodes`key, Nodes`prev, Nodes`next
    {
      && buckets.Length == BUCKETS && Layout(chains, Table, keyOf) && Nodes == keyOf.Keys
      && (forall s | s in Nodes :: s.key == keyOf[s])
      && (forall b {:trigger Homed(chains, keyOf, b)} | 0 <= b < BUCKETS :: Homed(chains, keyOf, b) && Linked(buckets[b], chains[b]))
    }

    /** Chains are lists of stored sessions, and no session is in two of them. */
    lemma ChainsApart(b: nat)
      requires Valid() && b < BUCKETS
      ensures forall j | 0 <= j < BUCKETS :: Linked(buckets[j], chains[j])
      ensures forall j, x | 0 <= j < BUCKETS && x in chains[j] :: x in Nodes && (j != b ==> x !in chains[b])
    {
      assert Homed(chains, keyOf, b);
      forall j | 0 <= j < BUCKETS
        ensures Linked(buckets[j], chains[j])
        ensures forall x | x in chains[j] :: x in Nodes && (j != b ==> x !in chains[b])
      {
        assert Homed(chains, keyOf, j);
      }
    }

    constructor ()
      ensures Valid() && Table == map[] && Nodes == {} && fresh(buckets)
    {
      buckets := new Session?[BUCKETS](_ => null);
      chains, keyOf, Table, Nodes := seq(BUCKETS, _ => []), map[], map[], {};
      new;
      forall b | 0 <= b < BUCKETS
        ensures Homed(chains, keyOf, b) && Linked(buckets[b], chains[b])
      {
        assert chains[b] == [];
      }
    }

    method Find(key: Id) returns (s: Session?)
      requires Valid()
      ensures if key in Table then s == Table[key] else s == null
    {
      ghost var c := chains[BucketOf(key)];
      ghost var i := 0;
      assert Homed(chains, keyOf, BucketOf(key));
      assert key in Table ==> Table[key] in c && Table[key].key == key by {
        if key in Table {
          assert Points(Table, keyOf, key) && Listed(chains, Table, keyOf, Table[key]);
        }
      }
      s := buckets[BucketOf(key)];
      assert Linked(s, c);
      while s != null && s.key != key
        invariant 0 <= i <= |c| && s == if i < |c| then c[i] else null
        invariant forall j | 0 <= j < i :: c[j].key != key
        decreases |c| - i
      {
        assert Joined(c, i);
        s := s.next;
        i := i + 1;
      }
      if s != null {
        assert c[i] in c && Listed(chains, Table, keyOf, s);
      }
    }

    /** The table's sessions are the linked ones, each under its own key. */
    lemma NodesAreTable()
      requires Valid()
      ensures forall k | k in Table :: Table[k] in Nodes && Table[k].key == k
      ensures forall s | s in Nodes :: s.key in Table && Table[s.key] == s
    {
      forall k | k in Table
        ensures Table[k] in Nodes && Table[k].key == k
      {
        assert Points(Table, keyOf, k);
      }
      forall s | s in Nodes
        ensures s.key in Table && Table[s.key] == s
      {
        assert Listed(chains, Table, keyOf, s);
      }
    }

    /** Puts `s` at the head of bucket `b`. */
    method PushFront(b: nat, s: Session, ghost cs: seq<seq<Session>>)
      requires |cs| == buckets.Length && b < |cs|
      requires forall j | 0 <= j < |cs| :: Linked(buckets[j], cs[j])
      requires forall j, x | 0 <= j < |cs| && x in cs[j] && j != b :: x !in cs[b]
      requires forall j | 0 <= j < |cs| :: s !in cs[j]
      modifies buckets, s`prev, s`next, cs[b]`prev
      ensures forall j | 0 <= j < |cs| :: Linked(buckets[j], cs[b := [s] + cs[b]][j])
    {
      ghost var c := cs[b];
      var head := buckets[b];
      assert Linked(head, c);
      s.prev, s.next := null, head;
      if head != null {
        head.prev := s;
      }
      buckets[b] := s;
      forall i | 0 <= i <= |c|
        ensures Joined([s] + c, i)
      {
        if i > 0 {
          assert old(Joined(c, i - 1));
        }
      }
      forall j, i | 0 <= j < |cs| && j != b && 0 <= i < |cs[j]|
        ensures Joined(cs[j], i)
      {
        assert cs[j][i] in cs[j] && cs[j][i] !in cs[b];
        assert old(Linked(buckets[j], cs[j]) && Joined(cs[j], i));
      }
    }

    /** Takes `s`, the node at position `i`, out of bucket `b`. */
    method Detach(b: nat, s: Session, ghost cs: seq<seq<Session>>, ghost i: nat)
      requires |cs| == buckets.Length && b < |cs| && i < |cs[b]| && cs[b][i] == s
      requires forall j | 0 <= j < |cs| :: Linked(buckets[j], cs[j])
      requires forall j, x | 0 <= j < |cs| && x in cs[j] && j != b :: x !in cs[b]
      modifies buckets, cs[b]`prev, cs[b]`next
      ensures forall j | 0 <= j < |cs| :: Linked(buckets[j], cs[b := cs[b][..i] + cs[b][i + 1..]][j])
    {
      ghost var c := cs[b];
      assert Linked(buckets[b], c) && Joined(c, i);
      if s.prev == null {
        buckets[b] := s.next;
      } else {
        s.prev.next := s.next;
      }
      if s.next != null {
        s.next.prev := s.prev;
      }
      ghost var d := c[..i] + c[i + 1..];
      forall j | 0 <= j < |d|
        ensures Joined(d, j)
      {
        assert old(Joined(c, if j < i then j else j + 1));
      }
      forall j, k | 0 <= j < |cs| && j != b && 0 <= k < |cs[j]|
        ensures Joined(cs[j], k)
      {
        assert cs[j][k] in cs[j] && cs[j][k] !in cs[b];
        assert old(Linked(buckets[j], cs[j]) && Joined(cs[j], k));
      }
    }

    /** Links `s` in without looking for its key. */
    method DirectInsert(key: Id, s: Session)
      requires Valid() && key !in Table && s !in Nodes
      modifies this, buckets, s`key, s`prev, s`next, Nodes`prev
      ensures Valid() && Table == old(Table)[key := s] && Nodes == old(Nodes) + {s}
    {
      var b := BucketOf(key);
      LayoutInsert(chains, Table, keyOf, key, s);
      ChainsApart(b);
      s.key := key;
      PushFront(b, s, chains);
      chains := chains[b := [s] + chains[b]];
      keyOf, Table, Nodes := keyOf[s := key], Table[key := s], Nodes + {s};
    }

    method Unlink(s: Session)
      requires Valid() && s in Nodes
      modifies this, buckets, Nodes`prev, Nodes`next
      ensures Valid() && Table == old(Table) - {s.key} && Nodes == old(Nodes) - {s}
    {
      var b := BucketOf(s.key);
      assert Listed(chains, Table, keyOf, s);
      ghost var i :| 0 <= i < |chains[b]| && chains[b][i] == s;
      ChainsApart(b);
      LayoutRemove(chains, Table, keyOf, s, i);
      Detach(b, s, chains, i);
      chains := chains[b := chains[b][..i] + chains[b][i + 1..]];
      keyOf, Table, Nodes := keyOf - {s}, Table - {s.key}, Nodes - {s};
    }

    method Erase(key: Id) returns (s: Session?)
      requires Valid()
      modifies this, buckets, Nodes`prev, Nodes`next
      ensures Valid() && Table == old(Table) - {key}
      ensures if key in old(Table) then s == old(Table)[key] && Nodes == old(Nodes) - {s} else s == null && Nodes == old(Nodes)
    {
      NodesAreTable();
      s := Find(key);
      if s != null {
        Unlink(s);
      }
    }
  }
}
