/**
 The containers of one service taken together: all its session maps, and the arrays
 of all its handlers. `tables` and `arrays` are what they hold.
 */
module Containers {
  import opened WrappingId
  import opened Intrusive
  import ServerSpec

  ghost function With(tables: seq<map<Id, Session>>, k: nat, id: Id, s: Session): seq<map<Id, Session>>
    requires k < |tables|
  {
    tables[k := tables[k][id := s]]
  }

  ghost function Dropped(tables: seq<map<Id, Session>>, k: nat, id: Id): seq<map<Id, Session>>
    requires k < |tables|
  {
    tables[k := tables[k] - {id}]
  }

  class SessionMaps {
    const maps: seq<BareHashMap>
    ghost const stores: set<array<Session?>>
    ghost var tables: seq<map<Id, Session>>
    ghost var known: set<Session>

    static ghost predicate MapIs(m: BareHashMap, table: map<Id, Session>)
      reads m, m.buckets, m.Nodes`key, m.Nodes`prev, m.Nodes`next
    {
      m.Valid() && m.Table == table
    }

    static ghost predicate Apart(maps: seq<BareHashMap>)
      reads maps
    {
      forall i, j {:trigger Separate(maps[i], maps[j])} | 0 <= i < j < |maps| :: Separate(maps[i], maps[j])
    }

    static ghost predicate Separate(m: BareHashMap, n: BareHashMap)
      reads m, n
    {
      m != n && m.buckets != n.buckets && m.Nodes !! n.Nodes
    }

    /** Each map holds its table, and no session is linked into two of them. */
    ghost predicate Valid()
      reads this, maps, stores, known`key, known`prev, known`next
    {
      && |maps| == |tables|
      && Apart(maps)
      && (forall k {:trigger Sound(k)} | 0 <= k < |maps| :: Sound(k))
    }

    ghost predicate Sound(k: nat)
      requires k < |maps| && k < |tables|
      reads this, maps, stores, known`key, known`prev, known`next
    {
      maps[k].buckets in stores && maps[k].Nodes <= known && MapIs(maps[k], tables[k])
    }

    constructor (kinds: nat)
      ensures Valid() && |tables| == kinds && (forall k | 0 <= k < kinds :: tables[k] == map[]) && known == {}
      ensures fresh(stores) && forall m | m in maps :: fresh(m)
    {
      var ms: seq<BareHashMap> := [];
      while |ms| < kinds
        invariant |ms| <= kinds
        invariant forall m | m in ms :: fresh(m) && fresh(m.buckets) && m.Nodes == {} && MapIs(m, map[])
        invariant Apart(ms)
      {
        var m := new BareHashMap();
        ms := ms + [m];
      }
      maps, stores := ms, set m | m in ms :: m.buckets;
      tables, known := seq(kinds, _ => map[]), {};
    }

    /** A linked session is an entry of the table of its map. */
    lemma LinkedIsEntry(k: nat, s: Session)
      requires Valid() && k < |maps| && s in maps[k].Nodes
      ensures s.key in tables[k] && tables[k][s.key] == s
    {
      assert Sound(k);
      maps[k].NodesAreTable();
    }

    method DirectInsert(k: nat, id: Id, s: Session)
      requires Valid() && k < |maps| && id !in tables[k] && forall m | m in maps :: s !in m.Nodes
      modifies this, maps[k], maps[k].buckets, known`prev, s`key, s`prev, s`next
      ensures Valid() && tables == With(old(tables), k, id, s) && known == old(known) + {s}
    {
      assert Sound(k);
      assert forall j | 0 <= j < |maps| :: s !in maps[j].Nodes;
      tables, known := tables[k := tables[k][id := s]], known + {s};
      maps[k].DirectInsert(id, s);
      forall j | 0 <= j < |maps|
        ensures Sound(j)
      {
        assert old(Sound(j));
        assert j < k ==> old(Separate(maps[j], maps[k]));
        assert k < j ==> old(Separate(maps[k], maps[j]));
      }
      forall i, j | 0 <= i < j < |maps|
        ensures Separate(maps[i], maps[j])
      {
        assert old(Separate(maps[i], maps[j]));
      }
    }

    method Erase(k: nat, id: Id) returns (s: Session?)
      requires Valid() && k < |maps|
      modifies this`tables, maps[k], maps[k].buckets, known`prev, known`next
      ensures Valid() && known == old(known)
      ensures if id in old(tables)[k] then s == old(tables)[k][id] && tables == Dropped(old(tables), k, id)
              else s == null && tables == old(tables)
    {
      assert Sound(k);
      s := maps[k].Erase(id);
      if s != null {
        tables := tables[k := tables[k] - {id}];
      }
      forall j | 0 <= j < |maps|
        ensures Sound(j)
      {
        assert old(Sound(j));
        assert j < k ==> old(Separate(maps[j], maps[k]));
        assert k < j ==> old(Separate(maps[k], maps[j]));
      }
      forall i, j | 0 <= i < j < |maps|
        ensures Separate(maps[i], maps[j])
      {
        assert old(Separate(maps[i], maps[j]));
      }
    }

    method Find(k: nat, id: Id) returns (s: Session?)
      requires Valid() && k < |maps|
      ensures if id in tables[k] then s == tables[k][id] else s == null
    {
      assert Sound(k);
      s := maps[k].Find(id);
    }
  }

  class HandlerArrays {
    ghost var stores: set<TypeArray>
    ghost var arrays: map<ServiceHandler, seq<Session>>
    ghost var known: set<Session>

    static ghost predicate ArrayIs(a: TypeArray, items: seq<Session>)
      reads a, (set s | s in a.items)`index
    {
      a.Valid() && a.items == items
    }

    /** Each handler's array lists its sessions, and no two handlers share an array. */
    ghost predicate Valid()
      reads this, stores, known`index
    {
      && (forall h, g {:trigger OwnArrays(h, g)} | h in arrays && g in arrays :: OwnArrays(h, g))
      && (forall h {:trigger Sound(h)} | h in arrays :: Sound(h))
    }

    static ghost predicate OwnArrays(h: ServiceHandler, g: ServiceHandler) {
      h.userSessions == g.userSessions ==> h == g
    }

    ghost predicate Sound(h: ServiceHandler)
      requires h in arrays
      reads this, stores, known`index
    {
      && h.userSessions in stores
      && (set s | s in h.userSessions.items) <= known
      && ArrayIs(h.userSessions, arrays[h])
    }

    /** No session sits in two arrays, or its index could not be right in both. */
    ghost predicate SeatsApart()
      reads this
    {
      forall h, g, s | h in arrays && g in arrays && s in arrays[h] && s in arrays[g] :: h == g
    }

    lemma HandlerIsStored(h: ServiceHandler)
      requires Valid() && h in arrays
      ensures h.userSessions in stores && forall s | s in h.userSessions.items :: s in known
    {
      assert Sound(h);
    }

    constructor ()
      ensures Valid() && arrays == map[] && known == {} && stores == {}
    {
      stores, arrays, known := {}, map[], {};
    }

    method Connect() returns (h: ServiceHandler)
      requires Valid()
      modifies this
      ensures Valid() && fresh(h) && fresh(stores - old(stores)) && h !in old(arrays)
      ensures arrays == old(arrays)[h := []] && known == old(known)
    {
      h := new ServiceHandler();
      stores, arrays := stores + {h.userSessions}, arrays[h := []];
      forall g | g in arrays
        ensures Sound(g) && OwnArrays(g, h) && OwnArrays(h, g)
      {
        if g != h {
          assert old(Sound(g));
        }
      }
      forall g, f | g in arrays && f in arrays
        ensures OwnArrays(g, f)
      {
      }
    }

    method Insert(h: ServiceHandler, s: Session)
      requires Valid() && h in arrays && forall g | g in arrays :: s !in arrays[g]
      modifies this`arrays, this`known, h.userSessions, s`index
      ensures Valid() && arrays == old(arrays)[h := old(arrays)[h] + [s]] && known == old(known) + {s}
    {
      assert Sound(h);
      h.userSessions.Insert(s);
      arrays, known := arrays[h := arrays[h] + [s]], known + {s};
      forall g | g in arrays
        ensures Sound(g)
      {
        assert OwnArrays(g, h);
        assert old(Sound(g));
      }
    }

    method Erase(h: ServiceHandler, s: Session)
      requires Valid() && SeatsApart() && h in arrays && s in arrays[h]
      modifies this`arrays, h.userSessions, known`index
      ensures Valid() && arrays == old(arrays)[h := ServerSpec.Without(old(arrays)[h], s)]
    {
      assert Sound(h);
      h.userSessions.Erase(s);
      arrays := arrays[h := ServerSpec.Without(arrays[h], s)];
      forall g | g in arrays
        ensures Sound(g)
      {
        assert OwnArrays(g, h);
        assert forall i | 0 <= i < |old(arrays)[g]| :: old(arrays)[g][i] in old(arrays)[g];
        assert old(Sound(g));
      }
    }
  }
}
