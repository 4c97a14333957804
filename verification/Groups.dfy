/** The forest of groups: ancestors and descendants, as the tree queries give them. */
module Groups {
  type GroupId = nat

  /** A group and its sub-groups. */
  datatype Group = Group(id: GroupId, subs: seq<Group>)

  /** The groups of a forest, each before its sub-groups. */
  function Members(f: seq<Group>): seq<GroupId> {
    if f == [] then [] else [f[0].id] + Members(f[0].subs) + Members(f[1..])
  }

  /** No group occurs twice. */
  ghost predicate Proper(f: seq<Group>) {
    f != [] ==>
      && Proper(f[0].subs) && Proper(f[1..])
      && f[0].id !in Members(f[0].subs) && f[0].id !in Members(f[1..])
      && forall g :: g in Members(f[0].subs) ==> g !in Members(f[1..])
  }

  /** The group and its ancestors, the top one first; nothing for an unknown group. */
  function Ancestors(f: seq<Group>, g: GroupId): seq<GroupId> {
    if f == [] then []
    else if f[0].id == g then [g]
    else
      var below := Ancestors(f[0].subs, g);
      if below != [] then [f[0].id] + below else Ancestors(f[1..], g)
  }

  /** The group and its descendants; nothing for an unknown group. */
  function Descendants(f: seq<Group>, g: GroupId): seq<GroupId> {
    if f == [] then []
    else if f[0].id == g then [g] + Members(f[0].subs)
    else
      var below := Descendants(f[0].subs, g);
      if below != [] then below else Descendants(f[1..], g)
  }

  lemma {:induction false} AncestorsKnown(f: seq<Group>, g: GroupId)
    ensures Ancestors(f, g) != [] <==> g in Members(f)
    ensures forall a :: a in Ancestors(f, g) ==> a in Members(f)
    ensures g in Members(f) ==> g in Ancestors(f, g)
  {
    if f != [] {
      AncestorsKnown(f[0].subs, g);
      AncestorsKnown(f[1..], g);
    }
  }

  /** The line of ancestors ends with the group itself. */
  lemma {:induction false} AncestorsEnd(f: seq<Group>, g: GroupId)
    ensures Ancestors(f, g) != [] ==> Ancestors(f, g)[|Ancestors(f, g)| - 1] == g
  {
    if f != [] {
      AncestorsEnd(f[0].subs, g);
      AncestorsEnd(f[1..], g);
    }
  }

  lemma {:induction false} DescendantsKnown(f: seq<Group>, g: GroupId)
    ensures Descendants(f, g) != [] <==> g in Members(f)
    ensures forall d :: d in Descendants(f, g) ==> d in Members(f)
  {
    if f != [] {
      DescendantsKnown(f[0].subs, g);
      DescendantsKnown(f[1..], g);
    }
  }

  /** One group is an ancestor of another exactly when that one is its descendant. */
  lemma {:induction false} Duality(f: seq<Group>, a: GroupId, d: GroupId)
    requires Proper(f)
    ensures a in Ancestors(f, d) <==> d in Descendants(f, a)
  {
    if f != [] {
      Duality(f[0].subs, a, d);
      Duality(f[1..], a, d);
      AncestorsKnown(f[0].subs, d);
      AncestorsKnown(f[1..], d);
      DescendantsKnown(f[0].subs, a);
      DescendantsKnown(f[1..], a);
    }
  }

  /** The ancestors of an ancestor are ancestors. */
  lemma {:induction false} AncestorsTransitive(f: seq<Group>, a: GroupId, b: GroupId, d: GroupId)
    requires Proper(f) && a in Ancestors(f, b) && b in Ancestors(f, d)
    ensures a in Ancestors(f, d)
  {
    AncestorsKnown(f[0].subs, d);
    AncestorsKnown(f[1..], d);
    AncestorsKnown(f[0].subs, b);
    AncestorsKnown(f[1..], b);
    if f[0].id == d || f[0].id == b || f[0].id == a {
    } else if d in Members(f[0].subs) {
      AncestorsTransitive(f[0].subs, a, b, d);
    } else {
      AncestorsTransitive(f[1..], a, b, d);
    }
  }

  /******* Read off the forest *******/

  /** `c` is a direct sub-group of `p` somewhere in the forest. */
  ghost predicate SubOf(f: seq<Group>, p: GroupId, c: GroupId) {
    f != [] &&
    ((f[0].id == p && exists k :: 0 <= k < |f[0].subs| && f[0].subs[k].id == c)
     || SubOf(f[0].subs, p, c) || SubOf(f[1..], p, c))
  }

  lemma {:induction false} TopAlone(f: seq<Group>, k: nat)
    requires Proper(f) && k < |f|
    ensures f[k].id in Members(f) && Ancestors(f, f[k].id) == [f[k].id]
  {
    if k > 0 {
      TopAlone(f[1..], k - 1);
      AncestorsKnown(f[0].subs, f[k].id);
    }
  }

  lemma {:induction false} SubKnown(f: seq<Group>, p: GroupId, c: GroupId)
    requires SubOf(f, p, c) && Proper(f)
    ensures p in Members(f) && c in Members(f)
  {
    if f[0].id == p && exists k :: 0 <= k < |f[0].subs| && f[0].subs[k].id == c {
      var k :| 0 <= k < |f[0].subs| && f[0].subs[k].id == c;
      TopAlone(f[0].subs, k);
    } else if SubOf(f[0].subs, p, c) {
      SubKnown(f[0].subs, p, c);
    } else {
      SubKnown(f[1..], p, c);
    }
  }

  /** The line above a sub-group is the line of its group, and itself; a top group has itself only. */
  lemma {:induction false} AncestorsOfSub(f: seq<Group>, p: GroupId, c: GroupId)
    requires Proper(f) && SubOf(f, p, c)
    ensures Ancestors(f, c) == Ancestors(f, p) + [c]
  {
    SubKnown(f, p, c);
    AncestorsKnown(f[0].subs, p);
    AncestorsKnown(f[0].subs, c);
    if f[0].id == p && exists k :: 0 <= k < |f[0].subs| && f[0].subs[k].id == c {
      var k :| 0 <= k < |f[0].subs| && f[0].subs[k].id == c;
      TopAlone(f[0].subs, k);
    } else if SubOf(f[0].subs, p, c) {
      SubKnown(f[0].subs, p, c);
      AncestorsOfSub(f[0].subs, p, c);
    } else {
      SubKnown(f[1..], p, c);
      AncestorsOfSub(f[1..], p, c);
    }
  }
}
