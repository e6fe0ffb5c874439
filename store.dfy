/**
 * The Firebase Realtime Database as the handlers use it: a map from the path
 * of a record (`deposits/{uid}/{depId}`, `users/{uid}/transactions/{txId}`,
 * `pay_references/{reference}`, ...) to the record's fields.
 *
 * `ref.update({...})` with field paths merges fields into records (`Patch`);
 * `ref.set(obj)` and an update whose values are whole objects replace a record
 * and everything beneath it (`Overwrite`); `ref.push()` picks a key that no
 * stored path uses (`Database.Push`).
 */
module Store {
  import opened Js
  import opened Gateway

  type Path = seq<string>

  /** A value stored in a record field. `Hundredths(h)` is the JavaScript number h / 100. */
  datatype Value =
    | Str(s: string)
    | Bool(b: bool)
    | Num(n: int)
    | Hundredths(h: int)
    | ChargeData(charge: Charge)
    | EventData(event: Event)

  type Record = map<string, Value>
  type Tree = map<Path, Record>

  /** A multi-path update whose keys are `{record path}/{field}`, grouped by record. */
  type FieldWrites = map<Path, Record>

  function At(t: Tree, p: Path): Option<Record>
  {
    if p in t then Some(t[p]) else None
  }

  /** The record at `p`, or the empty object that an update at `p` starts from. */
  function Base(t: Tree, p: Path): Record
  {
    if p in t then t[p] else map[]
  }

  function Get(r: Record, field: string): Option<Value>
  {
    if field in r then Some(r[field]) else None
  }

  /** Truthiness of a stored value; a missing one is `undefined`. */
  predicate TruthyValue(v: Option<Value>)
  {
    match v
    case None => false
    case Some(Str(s)) => s != ""
    case Some(Bool(b)) => b
    case Some(Num(n)) => n != 0
    case Some(Hundredths(h)) => h != 0
    case Some(_) => true
  }

  /** `${v}` in a template literal. */
  function Render(v: Option<Value>): string
  {
    match v
    case None => "undefined"
    case Some(Str(s)) => s
    case Some(Bool(b)) => if b then "true" else "false"
    case Some(Num(n)) => IntToString(n)
    case Some(Hundredths(h)) => HundredthsToString(h)
    case Some(_) => "[object Object]"
  }

  /**
   * The shortest decimal form of h / 100, as JavaScript prints it: a stored
   * amount in hundredths reaches a path template when an index entry's field
   * holds one.
   */
  function HundredthsToString(h: int): string
  {
    if h < 0 then "-" + UnsignedHundredths(-h) else UnsignedHundredths(h)
  }

  function UnsignedHundredths(h: nat): string
  {
    var whole, cents := h / 100, h % 100;
    if cents == 0 then Radix(whole, 10)
    else if cents % 10 == 0 then Radix(whole, 10) + "." + Radix(cents / 10, 10)
    else Radix(whole, 10) + "." + (if cents < 10 then "0" else "") + Radix(cents, 10)
  }

  /** A truthy request field, as the database stores it. */
  function Stored(f: Input): (v: Value)
    requires Truthy(f)
    ensures TruthyValue(Some(v))
    ensures Render(Some(v)) == InputString(f)
  {
    match f
    case Flag(b) => Bool(b)
    case Numeric(n) => Num(n)
    case Text(s) => Str(s)
    case _ => Str("-")
  }

  // ---------------------------------------------------------------------------
  // Layout of the tree

  function DepositPath(uid: string, depId: string): Path { ["deposits", uid, depId] }
  function FlatDepositPath(key: string): Path { ["deposits", key] }
  function TransactionPath(uid: string, txId: string): Path { ["users", uid, "transactions", txId] }
  function IndexPath(reference: string): Path { ["pay_references", reference] }
  function MissPath(reference: string, now: nat): Path { ["webhook_misses", reference, IntToString(now)] }

  /** A record at `deposits/{uid}/{depId}`. */
  predicate IsNestedDeposit(p: Path) { |p| == 3 && p[0] == "deposits" }

  /** A record directly under `deposits`. */
  predicate IsFlatDeposit(p: Path) { |p| == 2 && p[0] == "deposits" }

  // ---------------------------------------------------------------------------
  // Writes

  /** `q` lies strictly beneath `p`. */
  predicate Below(p: Path, q: Path)
  {
    |p| < |q| && q[..|p|] == p
  }

  /** Every path outside `touched` holds what it held before. */
  ghost predicate OnlyTouched(before: Tree, after: Tree, touched: set<Path>)
  {
    forall p :: p !in touched ==> At(after, p) == At(before, p)
  }

  /** `ref.update(w)`: the fields of `w[p]` are set in the record at `p`, created if absent. */
  function Patch(t: Tree, w: FieldWrites): (r: Tree)
    ensures r.Keys == t.Keys + w.Keys
    ensures forall p :: p in w ==> r[p] == Base(t, p) + w[p]
    ensures forall p :: p in t && p !in w ==> r[p] == t[p]
  {
    map p | p in t.Keys + w.Keys :: if p in w then Base(t, p) + w[p] else t[p]
  }

  /** The fields of `r`, the record at `p`, that no key of `w` turns into a record of its own. */
  function Surviving(r: Record, p: Path, w: FieldWrites): (u: Record)
    ensures forall f :: f in u <==> f in r && p + [f] !in w
    ensures forall f :: f in u ==> u[f] == r[f]
  {
    map f | f in r && p + [f] !in w :: r[f]
  }

  /**
   * `ref.update(w)` in general: a key of `w` at `p + [f]`, where the record at
   * `p` holds the leaf `f`, puts a record where the leaf was, so the leaf is
   * gone. `Patch` is the case in which no key lies beneath a stored leaf.
   */
  function PatchOverLeaves(t: Tree, w: FieldWrites): (r: Tree)
    ensures r.Keys == t.Keys + w.Keys
    ensures forall p :: p in w ==> r[p] == Surviving(Base(t, p), p, w) + w[p]
    ensures forall p :: p in t && p !in w ==> r[p] == Surviving(t[p], p, w)
  {
    map p | p in t.Keys + w.Keys :: if p in w then Surviving(Base(t, p), p, w) + w[p] else Surviving(t[p], p, w)
  }

  /** An update with no keys changes nothing. */
  lemma PatchOverNothing(t: Tree)
    ensures PatchOverLeaves(t, map[]) == t
  {
    var r := PatchOverLeaves(t, map[]);
    forall p | p in t ensures r[p] == t[p] {
      assert Surviving(t[p], p, map[]).Keys == t[p].Keys;
    }
  }

  /** No key of `w` is the path of a leaf stored in `t`. */
  predicate NoLeafBeneath(t: Tree, w: FieldWrites)
  {
    forall q :: q in w && |q| > 0 && q[..|q| - 1] in t ==> q[|q| - 1] !in t[q[..|q| - 1]]
  }

  /** When no key of `w` lies where a leaf is, the general update is `Patch`. */
  lemma PatchOverNoLeaf(t: Tree, w: FieldWrites)
    requires NoLeafBeneath(t, w)
    ensures PatchOverLeaves(t, w) == Patch(t, w)
  {
    var lhs, rhs := PatchOverLeaves(t, w), Patch(t, w);
    forall p | p in lhs ensures lhs[p] == rhs[p] {
      if p in t {
        SurvivingAll(t, w, p);
      }
    }
  }

  lemma SurvivingAll(t: Tree, w: FieldWrites, p: Path)
    requires NoLeafBeneath(t, w) && p in t
    ensures Surviving(t[p], p, w) == t[p]
  {
    forall f | f in t[p] ensures p + [f] !in w {
      var q := p + [f];
      assert q[..|q| - 1] == p;
    }
  }

  /** Some record of `recs` is an ancestor of `q`. */
  predicate Covered(recs: map<Path, Record>, q: Path)
  {
    exists p :: p in recs && Below(p, q)
  }

  /** `ref.set(r)` at every `p` of `recs`: the record replaces what was at `p` and beneath it. */
  function Overwrite(t: Tree, recs: map<Path, Record>): (r: Tree)
    ensures forall p :: p in recs ==> p in r && r[p] == recs[p]
    ensures forall q :: q in t && q !in recs ==> (q in r <==> !Covered(recs, q))
    ensures forall q :: q in r && q !in recs ==> q in t && r[q] == t[q]
  {
    map q | q in t.Keys + recs.Keys && (q in recs || !Covered(recs, q)) :: if q in recs then recs[q] else t[q]
  }

  /** The same fields written to every record of `ps`. */
  function Uniform(ps: set<Path>, fields: Record): (w: FieldWrites)
    ensures w.Keys == ps
  {
    map p | p in ps :: fields
  }

  /** Applying the updates of a loop one record at a time is applying them together. */
  lemma PatchStep(t: Tree, w: FieldWrites, p: Path, fields: Record)
    requires p !in w
    ensures Patch(Patch(t, w), map[p := fields]) == Patch(t, w[p := fields])
  {
    var lhs, rhs := Patch(Patch(t, w), map[p := fields]), Patch(t, w[p := fields]);
    assert lhs.Keys == rhs.Keys;
    forall q | q in lhs ensures lhs[q] == rhs[q] {
      if q == p {
        assert Base(Patch(t, w), p) == Base(t, p);
      }
    }
  }

  lemma UniformStep(ps: set<Path>, p: Path, fields: Record)
    ensures Uniform(ps + {p}, fields) == Uniform(ps, fields)[p := fields]
  {
  }

  /** Writing a record at a path nothing occupies, at or beneath, adds exactly that record. */
  lemma OverwriteFresh(t: Tree, p: Path, r: Record)
    requires forall q :: q in t ==> q != p && !Below(p, q)
    ensures Overwrite(t, map[p := r]) == t[p := r]
  {
    var lhs := Overwrite(t, map[p := r]);
    forall q | q in t ensures !Covered(map[p := r], q) {
      assert !Below(p, q);
    }
    assert lhs.Keys == t.Keys + {p};
  }

  /** A key that no path uses at the depth of `parent` gives a child of `parent` that is free, at and beneath. */
  lemma PushedPathFree(t: Tree, parent: Path, k: string)
    requires forall q :: q in t && |q| > |parent| ==> q[|parent|] != k
    ensures forall q :: q in t ==> q != parent + [k] && !Below(parent + [k], q)
  {
  }

  /** A set of paths has no more elements than a set that contains it. */
  lemma {:induction false} SubsetSize(a: set<Path>, b: set<Path>)
    requires a <= b
    ensures |a| <= |b|
    decreases |a|
  {
    if a != {} {
      var x :| x in a;
      SubsetSize(a - {x}, b - {x});
    }
  }

  // ---------------------------------------------------------------------------

  /** A handle on the database; `root` is its whole content. */
  class Database {
    var root: Tree

    constructor (initial: Tree)
      ensures root == initial
    {
      root := initial;
    }

    /** `db.ref().update(w)` with field-path keys, none of them beneath a stored leaf. */
    method UpdateFields(w: FieldWrites)
      modifies this
      ensures root == Patch(old(root), w)
    {
      root := Patch(root, w);
    }

    /** `db.ref().update(w)` with field-path keys, some of which may lie beneath a stored leaf. */
    method UpdateOverLeaves(w: FieldWrites)
      modifies this
      ensures root == PatchOverLeaves(old(root), w)
    {
      root := PatchOverLeaves(root, w);
    }

    /** `ref.set(...)`, or `db.ref().update(...)` whose values are whole records. */
    method SetRecords(recs: map<Path, Record>)
      modifies this
      ensures root == Overwrite(old(root), recs)
    {
      root := Overwrite(root, recs);
    }

    /** `ref.push().key` under `parent`: a non-empty key that no stored path uses at that depth. */
    method Push(parent: Path) returns (k: string)
      ensures k != ""
      ensures forall q :: q in root && |q| > |parent| ==> q[|parent|] != k
    {
      var longest: nat := 0;
      var todo := root.Keys;
      while todo != {}
        invariant todo <= root.Keys
        invariant forall q :: q in root && q !in todo && |q| > |parent| ==> |q[|parent|]| < longest
        decreases todo
      {
        var q :| q in todo;
        if |q| > |parent| && |q[|parent|]| >= longest {
          longest := |q[|parent|]| + 1;
        }
        todo := todo - {q};
      }
      k := seq(longest + 1, _ => '-');
    }
  }
}
