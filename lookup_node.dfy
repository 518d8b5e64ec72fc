// The objects of filterql/lookup.py: LookupNode, whose methods update its
// children list and negation in place, and Lookup, the leaf, which is the same
// object with its construction arguments kept. Each method is proved against
// the value-level definitions of module Lookup.

module LookupObjects {
  import opened Wrappers
  import opened Values
  import opened Lookup

  class LookupNode {
    var filters: seq<Child>
    var connector: Connector
    var negated: bool
    /** Present exactly for a Lookup (leaf) object: the arguments it was built from. */
    const leaf: Option<LeafArgs>

    /** The node's current state as a tree value. */
    function AsTree(): Tree
      reads this
    {
      Tree(filters, connector, negated, leaf)
    }

    /** LookupNode.__init__: a copy of the given children, AND unless told otherwise, not a leaf. */
    constructor (filters: seq<Child>, connector: Option<Connector>, negated: bool)
      ensures AsTree() == Tree(filters, connector.GetOr(And), negated, None)
    {
      this.filters := filters;
      this.connector := connector.GetOr(And);
      this.negated := negated;
      this.leaf := None;
    }

    /** The node part of Lookup.__init__, once the arguments have been validated. */
    constructor Leaf(args: LeafArgs)
      ensures AsTree() == Tree([Filter(LeafFilter(args.field, args.value, args.lookup))], And, false, Some(args))
    {
      filters := [Filter(LeafFilter(args.field, args.value, args.lookup))];
      connector := And;
      negated := false;
      leaf := Some(args);
    }

    /** Lookup.__init__: validation first (when asked for), then a fresh leaf object. */
    static method NewLookup(field: string, value: Value, lookup: string, validate: bool)
      returns (r: Result<LookupNode, LeafError>)
      ensures r.Success? ==> fresh(r.value) && NewLeaf(field, value, lookup, validate) == Success(r.value.AsTree())
      ensures r.Failure? ==> NewLeaf(field, value, lookup, validate) == Failure(r.error)
    {
      if validate {
        var lookupCheck := ValidateLookup(lookup);
        if lookupCheck.Fail? {
          return Failure(lookupCheck.error);
        }
        var valueCheck := ValidateValue(value, lookup);
        if valueCheck.Fail? {
          return Failure(valueCheck.error);
        }
      }
      var node := new LookupNode.Leaf(LeafArgs(field, value, lookup));
      return Success(node);
    }

    /** LookupNode.__len__: the number of direct children. */
    function Len(): (n: nat)
      reads this
      ensures n == |AsTree().filters|
    {
      |filters|
    }

    /**
     * LookupNode.add: only this node's children change, by the squashing rule;
     * the operand, read before the update, is left as it was.
     */
    method Add(other: LookupNode, conn: Connector)
      modifies this`filters
      ensures filters == AddTo(old(filters), old(other.AsTree()), conn)
      ensures connector == old(connector) && negated == old(negated)
      ensures other != this ==> other.AsTree() == old(other.AsTree())
    {
      var operand := other.AsTree();
      if IsDuplicateLeaf(filters, operand) {
        return;
      }
      if Splices(operand, conn) {
        filters := filters + operand.filters;
      } else {
        filters := filters + [Sub(operand)];
      }
    }

    /** LookupNode.negate: flips the negation and nothing else. */
    method Negate()
      modifies this`negated
      ensures negated == !old(negated)
    {
      negated := !negated;
    }

    /** LookupNode._combine: a fresh node with the connector, into which both operands are added. */
    method Combine(other: LookupNode, conn: Connector) returns (obj: LookupNode)
      ensures fresh(obj) && obj.AsTree() == Combined(AsTree(), other.AsTree(), conn)
    {
      obj := new LookupNode([], Some(conn), false);
      obj.Add(this, conn);
      obj.Add(other, conn);
    }

    /** `self & other` */
    method AndWith(other: LookupNode) returns (obj: LookupNode)
      ensures fresh(obj) && obj.AsTree() == Combined(AsTree(), other.AsTree(), And)
    {
      obj := Combine(other, And);
    }

    /** `self | other` */
    method OrWith(other: LookupNode) returns (obj: LookupNode)
      ensures fresh(obj) && obj.AsTree() == Combined(AsTree(), other.AsTree(), Or)
    {
      obj := Combine(other, Or);
    }

    /**
     * `~self`: for a node, LookupNode.__invert__ (a fresh AND node absorbs this one
     * and is negated); for a leaf, Lookup.__invert__ (a validated copy, negated).
     */
    method Invert() returns (r: Result<LookupNode, LeafError>)
      ensures r.Success? ==> fresh(r.value) && Inverted(AsTree()) == Success(r.value.AsTree())
      ensures r.Failure? ==> Inverted(AsTree()) == Failure(r.error)
    {
      match leaf
      case None =>
        var obj := new LookupNode([], None, false);
        obj.Add(this, And);
        obj.Negate();
        return Success(obj);
      case Some(a) =>
        var copy := NewLookup(a.field, a.value, a.lookup, true);
        if copy.Failure? {
          return Failure(copy.error);
        }
        copy.value.Negate();
        return Success(copy.value);
    }

    /**
     * LookupNode.from_dict: the root checks, then the loop over the connector's
     * payload, then the fields of a fresh node are set.
     */
    static method FromDictNode(v: Value) returns (r: Result<LookupNode, ParseError>)
      decreases v, 1
      ensures r.Success? ==> fresh(r.value) && FromDict(v) == Success(r.value.AsTree())
      ensures r.Failure? ==> FromDict(v) == Failure(r.error)
    {
      var root := RootOf(v);
      if root.Failure? {
        return Failure(root.error);
      }
      var (payload, conn, neg) := root.value;
      var children: seq<Child> := [];
      if payload.List? {
        var parsed := ParseChildren(payload);
        if parsed.Failure? {
          return Failure(parsed.error);
        }
        children := parsed.value;
      } else {
        // Not a list: Python iterates the string or dict, which yields no child at all.
        var t := NodeFrom(payload, conn, neg);
        if t.Failure? {
          return Failure(t.error);
        }
      }
      var node := new LookupNode([], None, false);
      node.filters := children;
      node.connector := conn;
      node.negated := neg;
      return Success(node);
    }

    /**
     * The `for _filter in filters` loop of from_dict over a list: nested nodes are
     * read recursively, leaf dicts are kept as they are, the first bad entry stops.
     */
    static method ParseChildren(payload: Value) returns (r: Result<seq<Child>, ParseError>)
      requires payload.List?
      decreases payload, 0
      ensures r == ParseEntries(payload, 0)
    {
      var children: seq<Child> := [];
      var i := 0;
      while i < |payload.items|
        invariant 0 <= i <= |payload.items|
        invariant ParseEntries(payload, 0) == Prepend(children, ParseEntries(payload, i))
      {
        var entry := payload.items[i];
        var child: Child;
        if entry.Dict? && IsNodeEntry(entry.entries) {
          var sub := FromDictNode(entry);
          if sub.Failure? {
            return Failure(sub.error);
          }
          child := Sub(sub.value.AsTree());
        } else {
          var c := ParseEntry(entry);
          if c.Failure? {
            return Failure(c.error);
          }
          child := c.value;
        }
        assert ParseEntry(entry) == Success(child);
        PrependStep(children, child, ParseEntries(payload, i + 1));
        children := children + [child];
        i := i + 1;
      }
      assert ParseEntries(payload, i) == Success([]);
      assert children + [] == children;
      return Success(children);
    }
  }
}
