/**
  Sharing of equal option trees (src/detection/detection_options.cc, lines 171-252 and 328-342, over the
  chained hash table of src/hash/xhash.cc, lines 445-498, 574-601 and 621-681): trees are compared
  without regard to where they live, hashed by a recursive mix, and kept once each.
 */
module TreeTable {
  import opened Basics

  /** A tree node at some address; only the option pointers and the shape take part in comparison. */
  datatype Tree = Tree(address: nat, relative: bool, data: bv64, children: seq<Tree>)

  datatype Mixed = Mixed(a: bv32, b: bv32, c: bv32)

  function Rot(x: bv32, k: nat): bv32
    requires 0 < k < 32
  {
    (x << k) | (x >> (32 - k))
  }

  function Mix(m: Mixed): Mixed {
    var a, b, c := m.a, m.b, m.c;
    var a, c := (a - c) ^ Rot(c, 4), c + b;
    var b, a := (b - a) ^ Rot(a, 6), a + c;
    var c, b := (c - b) ^ Rot(b, 8), b + a;
    var a, c := (a - c) ^ Rot(c, 16), c + b;
    var b, a := (b - a) ^ Rot(a, 19), a + c;
    var c, b := (c - b) ^ Rot(b, 4), b + a;
    Mixed(a, b, c)
  }

  /** The last word of the final mix. */
  function Finalize(m: Mixed): bv32 {
    var a, b, c := m.a, m.b, m.c;
    var c := (c ^ b) - Rot(b, 14);
    var a := (a ^ c) - Rot(c, 11);
    var b := (b ^ a) - Rot(a, 25);
    var c := (c ^ b) - Rot(b, 16);
    var a := (a ^ c) - Rot(c, 4);
    var b := (b ^ a) - Rot(a, 14);
    (c ^ b) - Rot(b, 24)
  }

  function High(p: bv64): bv32 { ((p >> 32) & 0xFFFF_FFFF) as bv32 }
  function Low(p: bv64): bv32 { (p & 0xFFFF_FFFF) as bv32 }
  function Word(k: nat): bv32 { (k % 0x1_0000_0000) as bv32 }

  /** Mixing in one child, given its own hash. */
  function Absorb(m: Mixed, data: bv64, size: nat, hash: bv32): Mixed {
    var m1 := Mix(Mixed(m.a + High(data), m.b + Low(data), m.c + hash));
    Mix(m1.(a := m1.a + Word(size)))
  }

  function Hash(t: Tree): bv32
    decreases t, |t.children| + 1
  {
    Finalize(HashKids(t, |t.children|))
  }

  /** The mix of the first `i` children. */
  function HashKids(t: Tree, i: nat): Mixed
    requires i <= |t.children|
    decreases t, i
  {
    if i == 0 then Mixed(0, 0, 0)
    else
      var child := t.children[i - 1];
      Absorb(HashKids(t, i - 1), child.data, |child.children|, Hash(child))
  }

  /** The comparison of the table: same option, same number of children, pairwise equal children. */
  predicate Equal(r: Tree, l: Tree) {
    && r.data == l.data
    && |r.children| == |l.children|
    && forall i | 0 <= i < |r.children| :: Equal(r.children[i], l.children[i])
  }

  /** What is left of a tree without addresses and relative flags. */
  datatype Shape = Shape(data: bv64, children: seq<Shape>)

  function Erased(t: Tree): Shape {
    Shape(t.data, seq(|t.children|, i requires 0 <= i < |t.children| => Erased(t.children[i])))
  }

  /** Trees are equal if and only if they differ at most in addresses and relative flags, at any depth. */
  lemma {:induction false} EqualMeansErased(r: Tree, l: Tree)
    ensures Equal(r, l) <==> Erased(r) == Erased(l)
  {
    var rs, ls := Erased(r).children, Erased(l).children;
    if |r.children| == |l.children| {
      forall i | 0 <= i < |r.children|
        ensures Equal(r.children[i], l.children[i]) <==> rs[i] == ls[i]
      {
        EqualMeansErased(r.children[i], l.children[i]);
      }
    } else {
      assert |rs| != |ls|;
    }
  }

  method HashTree(t: Tree) returns (h: bv32)
    ensures h == Hash(t)
    decreases t
  {
    hide Absorb, Finalize;
    var m := Mixed(0, 0, 0);
    for i := 0 to |t.children|
      invariant m == HashKids(t, i)
    {
      var k := HashTree(t.children[i]);
      m := Absorb(m, t.children[i].data, |t.children[i].children|, k);
    }
    h := Finalize(m);
  }

  method CompareTrees(r: Tree, l: Tree) returns (equal: bool)
    ensures equal == (Erased(r) == Erased(l)) == Equal(r, l)
    decreases r
  {
    EqualMeansErased(r, l);
    if r.data != l.data || |r.children| != |l.children| {
      return false;
    }
    for i := 0 to |r.children|
      invariant forall j | 0 <= j < i :: Equal(r.children[j], l.children[j])
    {
      var same := CompareTrees(r.children[i], l.children[i]);
      if !same {
        return false;
      }
    }
    equal := true;
  }

  // ----- comparison is an equivalence that the hash respects -----

  lemma {:induction false} EqualReflexive(t: Tree)
    ensures Equal(t, t)
  {
    forall i | 0 <= i < |t.children| ensures Equal(t.children[i], t.children[i]) {
      EqualReflexive(t.children[i]);
    }
  }

  lemma {:induction false} EqualSymmetric(r: Tree, l: Tree)
    requires Equal(r, l)
    ensures Equal(l, r)
  {
    forall i | 0 <= i < |l.children| ensures Equal(l.children[i], r.children[i]) {
      EqualSymmetric(r.children[i], l.children[i]);
    }
  }

  lemma {:induction false} EqualTransitive(r: Tree, m: Tree, l: Tree)
    requires Equal(r, m) && Equal(m, l)
    ensures Equal(r, l)
  {
    forall i | 0 <= i < |r.children| ensures Equal(r.children[i], l.children[i]) {
      EqualTransitive(r.children[i], m.children[i], l.children[i]);
    }
  }

  lemma {:induction false} EqualHash(r: Tree, l: Tree)
    requires Equal(r, l)
    ensures Hash(r) == Hash(l)
    decreases r, |r.children| + 1
  {
    hide Finalize, Absorb;
    EqualHashKids(r, l, |r.children|);
  }

  lemma {:induction false} EqualHashKids(r: Tree, l: Tree, i: nat)
    requires Equal(r, l) && i <= |r.children|
    ensures HashKids(r, i) == HashKids(l, i)
    decreases r, i
  {
    hide Absorb, Hash;
    if i > 0 {
      EqualHashKids(r, l, i - 1);
      EqualHash(r.children[i - 1], l.children[i - 1]);
    }
  }

  // ----- the table -----

  /** The row of a hash, among 8192. */
  function RowOf(hash: bv32): nat { (hash & 8191) as nat }

  lemma RowIsRemainder(hash: bv32)
    ensures RowOf(hash) == (hash % 8192) as nat < 8192
  {
  }

  function Row(t: Tree): nat { RowOf(Hash(t)) }

  /** Rows that were never used are empty. */
  type Rows = map<nat, seq<Tree>>

  function At(rows: Rows, i: nat): seq<Tree> {
    if i in rows then rows[i] else []
  }

  ghost predicate Stored(rows: Rows, t: Tree) {
    t in At(rows, Row(t))
  }

  /** Every tree is in its row, and no two trees of a row are equal. */
  ghost predicate Sound(rows: Rows) {
    && (forall i, k | i in rows && 0 <= k < |rows[i]| :: Row(rows[i][k]) == i)
    && (forall i, k, l | i in rows && 0 <= k < l < |rows[i]| :: !Equal(rows[i][k], rows[i][l]))
  }

  /** Equal trees share a row, so a sound table holds no two equal trees at all. */
  lemma StoredIsUnique(rows: Rows, r: Tree, l: Tree)
    requires Sound(rows) && Stored(rows, r) && Stored(rows, l) && Equal(r, l)
    ensures r == l
  {
    hide Row, Equal;
    SameRow(r, l);
    var row := At(rows, Row(r));
    var k :| 0 <= k < |row| && row[k] == r;
    var j :| 0 <= j < |row| && row[j] == l;
    if j < k { EqualSymmetric(r, l); }
  }

  lemma SameRow(r: Tree, l: Tree)
    requires Equal(r, l)
    ensures Row(r) == Row(l)
  {
    hide Hash, RowOf;
    EqualHash(r, l);
  }

  class Table {
    var rows: Rows

    constructor ()
      ensures Sound(rows) && forall t :: !Stored(rows, t)
    {
      rows := map[];
    }

    /** The first tree of the row that compares equal, moved to the front of its row. */
    method Find(t: Tree) returns (found: Option<Tree>)
      requires Sound(rows)
      modifies this
      ensures Sound(rows) && forall e :: Stored(rows, e) <==> old(Stored(rows, e))
      ensures found.Some? ==> Stored(rows, found.value) && Equal(found.value, t)
      ensures found.None? ==> rows == old(rows) && forall e | Stored(rows, e) :: !Equal(e, t)
    {
      hide Hash, RowOf, Equal, Sound;
      var h := HashTree(t);
      var i := RowOf(h);
      var row := At(rows, i);
      var k := 0;
      while k < |row|
        invariant k <= |row| && rows == old(rows)
        invariant forall j | 0 <= j < k :: !Equal(row[j], t)
      {
        var same := CompareTrees(row[k], t);
        if same {
          rows := rows[i := Fronted(row, k)];
          Moved(old(rows), rows, i, k);
          InItsRow(old(rows), i, k);
          return Some(row[k]);
        }
        k := k + 1;
      }
      found := None;
      NotInRow(rows, t);
    }

    /** Looks a tree up and links it at the front of its row if no equal one is there. */
    method AddTree(t: Tree) returns (found: Option<Tree>)
      requires Sound(rows)
      modifies this
      ensures Sound(rows)
      ensures found.Some? ==>
                && old(Stored(rows, found.value)) && Equal(found.value, t)
                && forall e :: Stored(rows, e) <==> old(Stored(rows, e))
      ensures found.None? ==>
                && (forall e | old(Stored(rows, e)) :: !Equal(e, t))
                && forall e :: Stored(rows, e) <==> old(Stored(rows, e)) || e == t
    {
      hide Hash, RowOf, Equal, Sound;
      found := Find(t);
      if found.None? {
        var h := HashTree(t);
        rows := rows[RowOf(h) := [t] + At(rows, RowOf(h))];
        Linked(old(rows), rows, t);
      }
    }
  }

  lemma InItsRow(rows: Rows, i: nat, k: nat)
    requires Sound(rows) && k < |At(rows, i)|
    ensures Stored(rows, At(rows, i)[k])
  {
    hide Row, Equal;
  }

  lemma NotInRow(rows: Rows, t: Tree)
    requires Sound(rows) && forall j | 0 <= j < |At(rows, Row(t))| :: !Equal(At(rows, Row(t))[j], t)
    ensures forall e | Stored(rows, e) :: !Equal(e, t)
  {
    hide Row, Equal;
    forall e | Stored(rows, e) ensures !Equal(e, t) {
      if Equal(e, t) { SameRow(e, t); }
    }
  }

  function Fronted(row: seq<Tree>, k: nat): seq<Tree>
    requires k < |row|
  {
    [row[k]] + row[..k] + row[k + 1..]
  }

  lemma FrontedDistinct(row: seq<Tree>, k: nat)
    requires k < |row| && forall a, b | 0 <= a < b < |row| :: !Equal(row[a], row[b])
    ensures |Fronted(row, k)| == |row|
    ensures forall a, b | 0 <= a < b < |row| :: !Equal(Fronted(row, k)[a], Fronted(row, k)[b])
  {
    hide Equal, Fronted;
    FrontedSize(row, k);
    forall a, b | 0 <= a < b < |row| ensures !Equal(Fronted(row, k)[a], Fronted(row, k)[b]) {
      var a', b' := Before(k, a), Before(k, b);
      MovedFrom(row, k, a);
      MovedFrom(row, k, b);
      if b' < a' && Equal(row[a'], row[b']) { EqualSymmetric(row[a'], row[b']); }
    }
  }

  lemma FrontedSame(row: seq<Tree>, k: nat, e: Tree)
    requires k < |row|
    ensures e in Fronted(row, k) <==> e in row
  {
    if e in row {
      var a :| 0 <= a < |row| && row[a] == e;
      assert Fronted(row, k)[if a == k then 0 else if a < k then a + 1 else a] == e;
    }
  }

  lemma Moved(rows: Rows, rows': Rows, i: nat, k: nat)
    requires Sound(rows) && k < |At(rows, i)|
    requires rows' == rows[i := Fronted(At(rows, i), k)]
    ensures Sound(rows') && forall e :: Stored(rows', e) <==> Stored(rows, e)
  {
    hide Row, Equal, Fronted;
    FrontedSize(rows[i], k);
    FrontedDistinct(rows[i], k);
    forall a | 0 <= a < |rows[i]| ensures Row(rows'[i][a]) == i { MovedFrom(rows[i], k, a); }
    forall e ensures e in rows'[i] <==> e in rows[i] { FrontedSame(rows[i], k, e); }
    forall e ensures Stored(rows', e) <==> Stored(rows, e) {
      assert At(rows', Row(e)) == if Row(e) == i then Fronted(At(rows, i), k) else At(rows, Row(e));
    }
  }

  lemma FrontedSize(row: seq<Tree>, k: nat)
    requires k < |row|
    ensures |Fronted(row, k)| == |row|
  {
  }

  lemma MovedFrom(row: seq<Tree>, k: nat, a: nat)
    requires k < |row| && a < |row|
    ensures |Fronted(row, k)| == |row| && Fronted(row, k)[a] == row[Before(k, a)]
  {}

  /** The position in a row of what moving entry `k` to the front puts at `a`. */
  function Before(k: nat, a: nat): nat {
    if a == 0 then k else if a <= k then a - 1 else a
  }

  lemma Linked(rows: Rows, rows': Rows, t: Tree)
    requires Sound(rows) && rows' == rows[Row(t) := [t] + At(rows, Row(t))]
    requires forall e | Stored(rows, e) :: !Equal(e, t)
    ensures Sound(rows') && forall e :: Stored(rows', e) <==> Stored(rows, e) || e == t
  {
    hide Row, Equal;
    var row := At(rows, Row(t));
    forall k | 0 <= k < |row| ensures !Equal(t, row[k]) {
      InItsRow(rows, Row(t), k);
      if Equal(t, row[k]) { EqualSymmetric(t, row[k]); }
    }
  }

  /** The first of the trees that differs from number `i` at most in what is erased. */
  function FirstAlike(trees: seq<Tree>, i: nat): (j: nat)
    requires i < |trees|
    ensures j <= i && Erased(trees[j]) == Erased(trees[i])
    ensures forall k | 0 <= k < j :: Erased(trees[k]) != Erased(trees[i])
  {
    FirstShape(trees, Erased(trees[i]), 0, i)
  }

  function FirstShape(trees: seq<Tree>, shape: Shape, from: nat, i: nat): (j: nat)
    requires from <= i < |trees| && Erased(trees[i]) == shape
    ensures from <= j <= i && Erased(trees[j]) == shape
    ensures forall k | from <= k < j :: Erased(trees[k]) != shape
    decreases i - from
  {
    if Erased(trees[from]) == shape then from else FirstShape(trees, shape, from + 1, i)
  }

  /** The table holds the first tree of every shape among the first `n` trees, and nothing else. */
  ghost predicate HoldsFirsts(rows: Rows, trees: seq<Tree>, n: nat)
    requires n <= |trees|
  {
    && (forall k | 0 <= k < n :: Stored(rows, trees[FirstAlike(trees, k)]))
    && (forall e | Stored(rows, e) :: exists k :: 0 <= k < n && e == trees[FirstAlike(trees, k)])
  }

  /**
    Adding any sequence of trees yields for each the first tree of the sequence that differs from it at most in
    addresses and relative flags; so two trees share a representative if and only if they differ in nothing else.
   */
  method AddAll(trees: seq<Tree>) returns (table: Table, shared: seq<Tree>)
    ensures fresh(table) && Sound(table.rows)
    ensures |shared| == |trees|
    ensures forall i | 0 <= i < |trees| :: shared[i] == trees[FirstAlike(trees, i)] && Stored(table.rows, shared[i])
    ensures forall i, j | 0 <= i < |trees| && 0 <= j < |trees| ::
              Erased(trees[i]) == Erased(trees[j]) <==> shared[i] == shared[j]
  {
    hide Equal, Stored, Erased;
    table := new Table();
    shared := [];
    for i := 0 to |trees|
      invariant fresh(table) && Sound(table.rows) && |shared| == i
      invariant HoldsFirsts(table.rows, trees, i)
      invariant forall k | 0 <= k < i :: shared[k] == trees[FirstAlike(trees, k)]
    {
      ghost var before := table.rows;
      var found := table.AddTree(trees[i]);
      if found.Some? {
        FoundIsFirst(before, trees, i, found.value);
      } else {
        NotFoundIsFirst(before, trees, i);
      }
      shared := shared + [if found.Some? then found.value else trees[i]];
      HoldsOneMore(before, table.rows, trees, i);
    }
    forall i, j | 0 <= i < |trees| && 0 <= j < |trees|
      ensures Erased(trees[i]) == Erased(trees[j]) <==> shared[i] == shared[j]
    {
      SameFirst(trees, i, j);
    }
  }

  lemma SameFirst(trees: seq<Tree>, i: nat, j: nat)
    requires i < |trees| && j < |trees|
    ensures Erased(trees[i]) == Erased(trees[j]) <==> trees[FirstAlike(trees, i)] == trees[FirstAlike(trees, j)]
  {
    hide Erased, FirstAlike;
    var a, b := FirstAlike(trees, i), FirstAlike(trees, j);
    if Erased(trees[i]) == Erased(trees[j]) {
      assert !(a < b) && !(b < a);
    }
  }

  /** A stored tree that is equal to the next one is the first of its shape. */
  lemma FoundIsFirst(rows: Rows, trees: seq<Tree>, i: nat, e: Tree)
    requires i < |trees| && HoldsFirsts(rows, trees, i) && Stored(rows, e) && Equal(e, trees[i])
    ensures e == trees[FirstAlike(trees, i)]
  {
    hide Erased, Equal, Stored, FirstAlike;
    EqualMeansErased(e, trees[i]);
    var k :| 0 <= k < i && e == trees[FirstAlike(trees, k)];
    SameFirst(trees, k, i);
  }

  lemma NotFoundIsFirst(rows: Rows, trees: seq<Tree>, i: nat)
    requires i < |trees| && HoldsFirsts(rows, trees, i) && forall e | Stored(rows, e) :: !Equal(e, trees[i])
    ensures FirstAlike(trees, i) == i
  {
    hide Erased, Equal, Stored, FirstAlike;
    var j := FirstAlike(trees, i);
    if j < i {
      var e := trees[FirstAlike(trees, j)];
      assert Stored(rows, e);
      EqualMeansErased(e, trees[i]);
      assert false;
    }
  }

  lemma HoldsOneMore(rows: Rows, rows': Rows, trees: seq<Tree>, i: nat)
    requires i < |trees| && HoldsFirsts(rows, trees, i)
    requires forall e :: Stored(rows', e) <==> Stored(rows, e) || e == trees[FirstAlike(trees, i)]
    ensures HoldsFirsts(rows', trees, i + 1)
  {
    hide Erased, Equal, Stored, FirstAlike;
    forall e | Stored(rows', e) ensures exists k :: 0 <= k < i + 1 && e == trees[FirstAlike(trees, k)] {
      if Stored(rows, e) {
        var k :| 0 <= k < i && e == trees[FirstAlike(trees, k)];
      } else {
        assert e == trees[FirstAlike(trees, i)];
      }
    }
  }
}
