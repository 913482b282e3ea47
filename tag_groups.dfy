/*
 * The two accumulation loops of `TagControl.list_groups` in plugins/tag.py.
 *
 * The remote projections are given as plain sequences: the first query's
 * rows as (parent id, child id) pairs, the second query's rows as six
 * optional values. `getValue()` is the identity on the wrapped value and
 * an absent value stays absent.
 */
module TagGroups {

  datatype Option<T> = None | Some(value: T)

  /** One row of the tag query: id, description, text value, owner id, owner's first and last name. */
  datatype TagResult = TagResult(
    id: Option<int>,
    description: Option<string>,
    text: Option<string>,
    owner: Option<int>,
    first: Option<string>,
    last: Option<string>)

  /** The fifth field of a tag row: the tag's children, or the integer 0. */
  datatype ChildField = Zero | Children(ids: seq<int>)

  /** One row of `tags`: id, description, text value, owner id and children. */
  datatype TagRow = TagRow(
    id: Option<int>,
    description: Option<string>,
    text: Option<string>,
    owner: Option<int>,
    children: ChildField)

  /** Every child id among the pairs. */
  function ChildIds(pairs: seq<(int, int)>): set<int>
  {
    set i | 0 <= i < |pairs| :: pairs[i].1
  }

  /** Every parent id among the pairs. */
  function ParentIds(pairs: seq<(int, int)>): set<int>
  {
    set i | 0 <= i < |pairs| :: pairs[i].0
  }

  /** The children paired with `parent`, in input order, repetitions kept. */
  function ChildrenOf(pairs: seq<(int, int)>, parent: int): seq<int>
  {
    if pairs == [] then []
    else
      var last := pairs[|pairs| - 1];
      ChildrenOf(pairs[..|pairs| - 1], parent) + (if last.0 == parent then [last.1] else [])
  }

  /** A parent's child list is non-empty exactly when the parent occurs in some pair. */
  lemma {:induction false} ChildrenOfNonEmpty(pairs: seq<(int, int)>, parent: int)
    ensures ChildrenOf(pairs, parent) != [] <==> parent in ParentIds(pairs)
  {
    if pairs != [] {
      var init := pairs[..|pairs| - 1];
      ChildrenOfNonEmpty(init, parent);
      assert ParentIds(pairs) == ParentIds(init) + {pairs[|pairs| - 1].0} by {
        forall x | x in ParentIds(pairs) ensures x in ParentIds(init) + {pairs[|pairs| - 1].0} {
          var i :| 0 <= i < |pairs| && pairs[i].0 == x;
          if i < |pairs| - 1 {
            assert init[i] == pairs[i];
          }
        }
        forall x | x in ParentIds(init) ensures x in ParentIds(pairs) {
          var i :| 0 <= i < |init| && init[i].0 == x;
          assert pairs[i] == init[i];
        }
      }
    }
  }

  /** `children` and `mapping` as built by the first loop of `list_groups`. */
  method GroupChildren(pairs: seq<(int, int)>) returns (children: set<int>, mapping: map<int, seq<int>>)
    ensures children == ChildIds(pairs)
    ensures mapping.Keys == ParentIds(pairs)
    ensures forall p :: p in mapping ==> mapping[p] == ChildrenOf(pairs, p)
  {
    children := {};
    mapping := map[];
    var i := 0;
    while i < |pairs|
      invariant 0 <= i <= |pairs|
      invariant children == ChildIds(pairs[..i])
      invariant mapping.Keys == ParentIds(pairs[..i])
      invariant forall p :: p in mapping ==> mapping[p] == ChildrenOf(pairs[..i], p)
    {
      var parent, child := pairs[i].0, pairs[i].1;
      assert pairs[..i + 1][..i] == pairs[..i];
      ChildrenOfNonEmpty(pairs[..i], parent);
      children := children + {child};
      mapping := mapping[parent := (if parent in mapping then mapping[parent] else []) + [child]];
      i := i + 1;
    }
    assert pairs[..i] == pairs;
  }

  lemma ParentIdsSnoc(pairs: seq<(int, int)>, x: (int, int))
    ensures ParentIds(pairs + [x]) == ParentIds(pairs) + {x.0}
  {
    var all := pairs + [x];
    forall q | q in ParentIds(all) ensures q in ParentIds(pairs) + {x.0} {
      var i :| 0 <= i < |all| && all[i].0 == q;
      if i < |pairs| {
        assert all[i] == pairs[i];
      }
    }
    forall q | q in ParentIds(pairs) ensures q in ParentIds(all) {
      var i :| 0 <= i < |pairs| && pairs[i].0 == q;
      assert all[i] == pairs[i];
    }
    assert all[|pairs|] == x;
  }

  lemma ChildrenOfSnoc(pairs: seq<(int, int)>, x: (int, int), parent: int)
    ensures ChildrenOf(pairs + [x], parent) == ChildrenOf(pairs, parent) + (if x.0 == parent then [x.1] else [])
  {
    assert (pairs + [x])[..|pairs|] == pairs;
  }

  /**
   * Each (parent, child) pair puts its child into the parent's list once: a
   * child appears in the list as often as the pair appears in the input.
   */
  lemma {:induction false} ChildrenOfMultiplicity(pairs: seq<(int, int)>, parent: int, child: int)
    ensures multiset(ChildrenOf(pairs, parent))[child] == multiset(pairs)[(parent, child)]
  {
    if pairs != [] {
      var init, x := pairs[..|pairs| - 1], pairs[|pairs| - 1];
      assert pairs == init + [x];
      ChildrenOfMultiplicity(init, parent, child);
      ChildrenOfSnoc(init, x, parent);
    }
  }

  /** The distinct parent ids in order of first appearance. */
  function Parents(pairs: seq<(int, int)>): seq<int>
  {
    if pairs == [] then []
    else
      var seen, last := Parents(pairs[..|pairs| - 1]), pairs[|pairs| - 1].0;
      if last in seen then seen else seen + [last]
  }

  /** Parents lists every parent id exactly once and nothing else. */
  lemma {:induction false} ParentsOnce(pairs: seq<(int, int)>, q: int)
    ensures multiset(Parents(pairs))[q] == if q in ParentIds(pairs) then 1 else 0
  {
    if pairs != [] {
      var init, x := pairs[..|pairs| - 1], pairs[|pairs| - 1];
      assert pairs == init + [x];
      ParentIdsSnoc(init, x);
      ParentsOnce(init, q);
      ParentsOnce(init, x.0);
    }
  }

  /** The total length of the child lists of `keys`. */
  function SumChildren(pairs: seq<(int, int)>, keys: seq<int>): nat
  {
    if keys == [] then 0 else |ChildrenOf(pairs, keys[0])| + SumChildren(pairs, keys[1..])
  }

  lemma {:induction false} SumChildrenSnoc(pairs: seq<(int, int)>, x: (int, int), keys: seq<int>)
    ensures SumChildren(pairs + [x], keys) == SumChildren(pairs, keys) + multiset(keys)[x.0]
  {
    if keys != [] {
      assert keys == [keys[0]] + keys[1..];
      ChildrenOfSnoc(pairs, x, keys[0]);
      SumChildrenSnoc(pairs, x, keys[1..]);
    }
  }

  lemma {:induction false} SumChildrenAppend(pairs: seq<(int, int)>, keys: seq<int>, k: int)
    ensures SumChildren(pairs, keys + [k]) == SumChildren(pairs, keys) + |ChildrenOf(pairs, k)|
  {
    if keys != [] {
      assert (keys + [k])[1..] == keys[1..] + [k];
      SumChildrenAppend(pairs, keys[1..], k);
    }
  }

  /** Over all parents, the child lists hold exactly as many entries as there are pairs. */
  lemma {:induction false} ChildCountTotal(pairs: seq<(int, int)>)
    ensures SumChildren(pairs, Parents(pairs)) == |pairs|
  {
    if pairs != [] {
      var init, x := pairs[..|pairs| - 1], pairs[|pairs| - 1];
      assert pairs == init + [x];
      ChildCountTotal(init);
      ParentsOnce(init, x.0);
      SumChildrenSnoc(init, x, Parents(init));
      if x.0 !in Parents(init) {
        SumChildrenAppend(pairs, Parents(init), x.0);
        ChildrenOfSnoc(init, x, x.0);
        ChildrenOfNonEmpty(init, x.0);
      }
    }
  }

  /** `"%s %s" % (first, last)`: an absent name is formatted as "None". */
  function Format(v: Option<string>): string
  {
    match v
    case None => "None"
    case Some(s) => s
  }

  function OwnerName(r: TagResult): string
  {
    Format(r.first) + " " + Format(r.last)
  }

  /** `mapping.get(tag_id) or 0`: a missing key and an empty list both give 0. */
  function ChildFieldOf(mapping: map<int, seq<int>>, tagId: Option<int>): ChildField
  {
    if tagId.Some? && tagId.value in mapping && mapping[tagId.value] != [] then Children(mapping[tagId.value])
    else Zero
  }

  /** Every owner id among the results. */
  function OwnerIds(results: seq<TagResult>): set<Option<int>>
  {
    set i | 0 <= i < |results| :: results[i].owner
  }

  /** `results[i]` is the last result whose owner is `owner`. */
  predicate LastOfOwner(results: seq<TagResult>, i: int, owner: Option<int>)
  {
    0 <= i < |results| && results[i].owner == owner &&
    forall j :: i < j < |results| ==> results[j].owner != owner
  }

  /** `tags` and `owners` as built by the second loop of `list_groups`. */
  method BuildTags(results: seq<TagResult>, mapping: map<int, seq<int>>)
    returns (tags: seq<TagRow>, owners: map<Option<int>, string>)
    ensures |tags| == |results|
    ensures forall i :: 0 <= i < |results| ==>
      tags[i].id == results[i].id && tags[i].description == results[i].description &&
      tags[i].text == results[i].text && tags[i].owner == results[i].owner &&
      tags[i].children == ChildFieldOf(mapping, results[i].id)
    ensures owners.Keys == OwnerIds(results)
    ensures forall o :: o in owners ==>
      exists i :: LastOfOwner(results, i, o) && owners[o] == OwnerName(results[i])
  {
    tags := [];
    owners := map[];
    var k := 0;
    while k < |results|
      invariant 0 <= k <= |results|
      invariant |tags| == k
      invariant forall i :: 0 <= i < k ==>
        tags[i].id == results[i].id && tags[i].description == results[i].description &&
        tags[i].text == results[i].text && tags[i].owner == results[i].owner &&
        tags[i].children == ChildFieldOf(mapping, results[i].id)
      invariant owners.Keys == OwnerIds(results[..k])
      invariant forall o :: o in owners ==>
        exists i :: LastOfOwner(results[..k], i, o) && owners[o] == OwnerName(results[i])
    {
      var r := results[k];
      tags := tags + [TagRow(r.id, r.description, r.text, r.owner, ChildFieldOf(mapping, r.id))];
      assert results[..k + 1] == results[..k] + [r];
      var next := owners[r.owner := OwnerName(r)];
      forall o | o in next
        ensures exists i :: LastOfOwner(results[..k + 1], i, o) && next[o] == OwnerName(results[i])
      {
        if o == r.owner {
          assert LastOfOwner(results[..k + 1], k, o);
        } else {
          var i :| LastOfOwner(results[..k], i, o) && owners[o] == OwnerName(results[i]);
          assert LastOfOwner(results[..k + 1], i, o);
        }
      }
      owners := next;
      k := k + 1;
    }
    assert results[..k] == results;
  }

  /**
   * Both loops of `list_groups` in sequence: the fifth field of every tag row
   * is the tag's child list when the tag is a parent in some pair, and 0
   * otherwise.
   */
  method ListGroups(pairs: seq<(int, int)>, results: seq<TagResult>)
    returns (tags: seq<TagRow>, owners: map<Option<int>, string>)
    ensures |tags| == |results|
    ensures forall i :: 0 <= i < |results| ==>
      tags[i].id == results[i].id && tags[i].description == results[i].description &&
      tags[i].text == results[i].text && tags[i].owner == results[i].owner &&
      tags[i].children == (if results[i].id.Some? && results[i].id.value in ParentIds(pairs)
                           then Children(ChildrenOf(pairs, results[i].id.value)) else Zero)
    ensures owners.Keys == OwnerIds(results)
    ensures forall o :: o in owners ==>
      exists i :: LastOfOwner(results, i, o) && owners[o] == OwnerName(results[i])
  {
    var children, mapping := GroupChildren(pairs);
    tags, owners := BuildTags(results, mapping);
    forall i | 0 <= i < |results| && results[i].id.Some?
      ensures ChildFieldOf(mapping, results[i].id) ==
        if results[i].id.value in ParentIds(pairs) then Children(ChildrenOf(pairs, results[i].id.value)) else Zero
    {
      ChildrenOfNonEmpty(pairs, results[i].id.value);
    }
  }
}
