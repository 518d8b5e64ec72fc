// What a lookup tree stands for: the boolean reading of `&`, `|` and `~` over
// leaf filters, given which filter dicts hold for a record. The combinators of
// filterql/lookup.py are meant to build trees with this reading; the lemmas
// below show where the code as written departs from it and prove the
// corrected rules.

module Meaning {
  import opened Wrappers
  import opened Values
  import opened LookupTypes
  import opened Lookup

  /** Which filter dicts hold for one record. */
  type Holds = map<string, Value> -> bool

  /** A record cannot tell apart two filter dicts that Python considers equal. */
  ghost predicate RespectsEq(holds: Holds) {
    forall d1, d2 :: DictEq(d1, d2) ==> holds(d1) == holds(d2)
  }

  function Op(conn: Connector, x: bool, y: bool): bool {
    match conn
    case And => x && y
    case Or => x || y
  }

  /** The children joined by the connector: AND of none holds, OR of none does not. */
  predicate Joined(cs: seq<Child>, conn: Connector, holds: Holds)
    decreases cs
  {
    match conn
    case And => forall i | 0 <= i < |cs| :: EvalChild(cs[i], holds)
    case Or => exists i | 0 <= i < |cs| :: EvalChild(cs[i], holds)
  }

  predicate EvalChild(c: Child, holds: Holds)
    decreases c
  {
    match c
    case Filter(d) => holds(d)
    case Sub(n) => Eval(n, holds)
  }

  /** A node holds when its children joined by its connector do, flipped when negated. */
  predicate Eval(t: Tree, holds: Holds)
    decreases t
  {
    if t.negated then !Joined(t.filters, t.connector, holds) else Joined(t.filters, t.connector, holds)
  }

  lemma JoinedAppend(xs: seq<Child>, ys: seq<Child>, conn: Connector, holds: Holds)
    ensures Joined(xs + ys, conn, holds) == Op(conn, Joined(xs, conn, holds), Joined(ys, conn, holds))
  {
    var zs := xs + ys;
    match conn
    case And =>
      if Joined(xs, conn, holds) && Joined(ys, conn, holds) {
        forall i | 0 <= i < |zs| ensures EvalChild(zs[i], holds) {
          if i < |xs| { assert zs[i] == xs[i]; } else { assert zs[i] == ys[i - |xs|]; }
        }
      }
      if Joined(zs, conn, holds) {
        forall i | 0 <= i < |xs| ensures EvalChild(xs[i], holds) { assert zs[i] == xs[i]; }
        forall i | 0 <= i < |ys| ensures EvalChild(ys[i], holds) { assert zs[|xs| + i] == ys[i]; }
      }
    case Or =>
      if Joined(xs, conn, holds) {
        var i :| 0 <= i < |xs| && EvalChild(xs[i], holds);
        assert zs[i] == xs[i];
      } else if Joined(ys, conn, holds) {
        var i :| 0 <= i < |ys| && EvalChild(ys[i], holds);
        assert zs[|xs| + i] == ys[i];
      }
      if Joined(zs, conn, holds) {
        var i :| 0 <= i < |zs| && EvalChild(zs[i], holds);
        if i < |xs| { assert zs[i] == xs[i]; } else { assert zs[i] == ys[i - |xs|]; }
      }
  }

  lemma JoinedSingleton(c: Child, conn: Connector, holds: Holds)
    ensures Joined([c], conn, holds) == EvalChild(c, holds)
  {
    assert [c][0] == c;
    match conn
    case And =>
    case Or =>
      if EvalChild(c, holds) {
        assert EvalChild([c][0], holds);
      }
  }

  /** Spliced children mean, under the target connector, what the operand meant. */
  lemma {:induction false} SplicedChildrenKeepMeaning(other: Tree, conn: Connector, holds: Holds)
    requires Splices(other, conn)
    ensures Joined(other.filters, conn, holds) == Eval(other, holds)
  {
    if other.connector != conn {
      assert |other.filters| == 1;
      match conn
      case And =>
        assert Joined(other.filters, conn, holds) == EvalChild(other.filters[0], holds);
      case Or =>
        assert Joined(other.filters, conn, holds) == EvalChild(other.filters[0], holds);
    }
  }

  // ---------------------------------------------------------------------------
  // add, as written and corrected

  /**
   * The squashing rule with the duplicate test limited to what makes dropping
   * sound: a leaf that is not negated and still holds its single filter.
   */
  function AddToFixed(fs: seq<Child>, other: Tree, conn: Connector): (r: seq<Child>)
    ensures |fs| <= |r| && r[..|fs|] == fs
  {
    if !other.negated && |other.filters| == 1 && IsDuplicateLeaf(fs, other) then fs
    else if Splices(other, conn) then fs + other.filters
    else fs + [Sub(other)]
  }

  /** `_combine` built on the corrected squashing rule. */
  function CombinedFixed(a: Tree, b: Tree, conn: Connector): (r: Tree)
    ensures r.connector == conn && !r.negated && r.leaf.None?
  {
    Tree(AddToFixed(AddToFixed([], a, conn), b, conn), conn, false, None)
  }

  /** The two rules agree on every operand except a negated (or grown) leaf that looks like a duplicate. */
  lemma {:induction false} AddToAgreesOffNegatedLeaves(fs: seq<Child>, other: Tree, conn: Connector)
    requires other.leaf.None? || (!other.negated && |other.filters| == 1)
    ensures AddTo(fs, other, conn) == AddToFixed(fs, other, conn)
  {
  }

  /** Adding an operand under the corrected rule joins its meaning to the node's with the connector. */
  lemma {:induction false} AddToFixedMeaning(fs: seq<Child>, other: Tree, conn: Connector, holds: Holds)
    requires RespectsEq(holds)
    ensures Joined(AddToFixed(fs, other, conn), conn, holds) == Op(conn, Joined(fs, conn, holds), Eval(other, holds))
  {
    if !other.negated && |other.filters| == 1 && IsDuplicateLeaf(fs, other) {
      var f := other.filters[0].entries;
      var i :| 0 <= i < |fs| && fs[i].Filter? && DictEq(fs[i].entries, f);
      assert EvalChild(fs[i], holds) == holds(f);
      SplicedChildrenKeepMeaning(other, conn, holds);
      assert Joined(other.filters, conn, holds) == holds(f) by {
        assert Joined(other.filters, conn, holds) == EvalChild(other.filters[0], holds);
      }
    } else if Splices(other, conn) {
      JoinedAppend(fs, other.filters, conn, holds);
      SplicedChildrenKeepMeaning(other, conn, holds);
    } else {
      JoinedAppend(fs, [Sub(other)], conn, holds);
      JoinedSingleton(Sub(other), conn, holds);
    }
  }

  /** `a & b` holds exactly when both do, `a | b` when either does, under the corrected rule. */
  lemma {:induction false} CombinedFixedMeaning(a: Tree, b: Tree, conn: Connector, holds: Holds)
    requires RespectsEq(holds)
    ensures Eval(CombinedFixed(a, b, conn), holds) == Op(conn, Eval(a, holds), Eval(b, holds))
  {
    AddToFixedMeaning([], a, conn, holds);
    AddToFixedMeaning(AddToFixed([], a, conn), b, conn, holds);
  }

  /** As written, `&` and `|` mean what they should whenever the right operand is not a negated leaf. */
  lemma {:induction false} CombinedMeaningOffNegatedLeaves(a: Tree, b: Tree, conn: Connector, holds: Holds)
    requires RespectsEq(holds)
    requires b.leaf.None? || (!b.negated && |b.filters| == 1)
    ensures Eval(Combined(a, b, conn), holds) == Op(conn, Eval(a, holds), Eval(b, holds))
  {
    assert AddTo([], a, conn) == AddToFixed([], a, conn);
    AddToFixedMeaning([], a, conn, holds);
    AddToAgreesOffNegatedLeaves(AddToFixed([], a, conn), b, conn);
    AddToFixedMeaning(AddToFixed([], a, conn), b, conn, holds);
  }

  /** Every record passes every filter. */
  function Everything(): Holds {
    d => true
  }

  /** As written, `L(a) & ~L(a)` holds for a record that passes `a`: the negated duplicate was dropped. */
  lemma {:induction false} AndWithOwnNegationHolds(a: Tree)
    requires PlainLeaf(a) && Inverted(a).Success?
    ensures RespectsEq(Everything())
    ensures Eval(Combined(a, Inverted(a).value, And), Everything())
    ensures !(Eval(a, Everything()) && Eval(Inverted(a).value, Everything()))
  {
    NegatedDuplicateIsDropped(a, And);
    var n := Inverted(a).value;
    assert Joined(n.filters, n.connector, Everything()) by {
      assert EvalChild(n.filters[0], Everything());
    }
    assert EvalChild(a.filters[0], Everything());
  }

  // ---------------------------------------------------------------------------
  // `~` on a leaf, as written and corrected

  /** `~` with the leaf case toggling the negation of a copy, as LookupNode.__invert__ does for nodes. */
  function InvertedFixed(t: Tree): (r: Tree)
    ensures r.leaf == t.leaf && r.negated == (if t.leaf.Some? then !t.negated else true)
  {
    match t.leaf
    case None => Tree(AddTo([], t, And), And, true, None)
    case Some(_) => t.(negated := !t.negated)
  }

  /** `~t` holds exactly when `t` does not, for nodes and leaves alike, and never fails. */
  lemma {:induction false} InvertedFixedMeaning(t: Tree, holds: Holds)
    ensures Eval(InvertedFixed(t), holds) == !Eval(t, holds)
  {
    if t.leaf.None? {
      if Splices(t, And) {
        SplicedChildrenKeepMeaning(t, And, holds);
      } else {
        JoinedSingleton(Sub(t), And, holds);
      }
    }
  }

  /** As written, `~` on a node means what it should: the fresh node absorbs the operand and is negated. */
  lemma {:induction false} InvertedNodeMeaning(t: Tree, holds: Holds)
    requires t.leaf.None?
    ensures Inverted(t) == Success(InvertedFixed(t))
    ensures Eval(Inverted(t).value, holds) == !Eval(t, holds)
  {
    InvertedFixedMeaning(t, holds);
  }

  /** As written, `~~L(a)` is still negated, so it holds for no record that passes `a`. */
  lemma {:induction false} DoubleInversionStaysNegated(a: Tree)
    requires PlainLeaf(a) && Inverted(a).Success?
    ensures Inverted(Inverted(a).value).Success?
    ensures Inverted(Inverted(a).value).value == Inverted(a).value
    ensures Eval(a, Everything()) && !Eval(Inverted(Inverted(a).value).value, Everything())
  {
    var n := Inverted(a).value;
    assert EvalChild(a.filters[0], Everything());
    assert EvalChild(n.filters[0], Everything());
  }

  /** As written, `~` on a leaf built without validation validates it and can fail. */
  lemma {:induction false} InvertingUnvalidatedLeafFails(field: string, value: Value)
    ensures NewLeaf(field, value, "spindle", false).Success?
    ensures Inverted(NewLeaf(field, value, "spindle", false).value) == Failure(UnsupportedLookup("spindle", Registry))
  {
    UnknownNameIsUnsupported();
  }
}
