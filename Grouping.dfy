/** The insertion-ordered `Map` that both the dashboard and the analytics
    page build in a `forEach` over the answers: keyed by interview
    reference, each entry keeps the data of the first answer seen for that
    key and the list of its scores in answer order. A JavaScript `Map`
    iterates in the order its keys were first set, which `order` records. */
module Grouping {
  import opened Seqs

  /** One answer that passed the caller's filter: its key, its parsed score
      and whatever the caller keeps from the first answer of a group. */
  datatype Entry<D> = Entry(key: string, score: int, info: D)

  datatype Group<D> = Group(first: D, scores: seq<int>)

  datatype Grouped<D> = Grouped(order: seq<string>, groups: map<string, Group<D>>)

  /** The body of the `forEach`: create the group on first sight, then
      push the score. A new key joins the end of the iteration order and
      starts its group with this entry's data; a known key keeps its place
      and its data; every other group is left as it was. */
  function Insert<D>(g: Grouped<D>, e: Entry<D>): (g': Grouped<D>)
    ensures g'.groups.Keys == g.groups.Keys + {e.key}
    ensures e.key in g.groups ==>
              g'.order == g.order && g'.groups[e.key].first == g.groups[e.key].first
              && g'.groups[e.key].scores == g.groups[e.key].scores + [e.score]
    ensures e.key !in g.groups ==> g'.order == g.order + [e.key] && g'.groups[e.key] == Group(e.info, [e.score])
    ensures forall k :: k in g.groups && k != e.key ==> g'.groups[k] == g.groups[k]
  {
    var order := if e.key in g.groups then g.order else g.order + [e.key];
    var grp := if e.key in g.groups then g.groups[e.key] else Group(e.info, []);
    Grouped(order, g.groups[e.key := grp.(scores := grp.scores + [e.score])])
  }

  /** The Map calls in the body of the `forEach`: `set(key, ...)` when the
      key is new, then `get(key)` and `push(score)`. */
  method AddScore<D>(order: seq<string>, groups: map<string, Group<D>>, key: string, score: int, info: D)
    returns (order': seq<string>, groups': map<string, Group<D>>)
    ensures Grouped(order', groups') == Insert(Grouped(order, groups), Entry(key, score, info))
  {
    order', groups' := order, groups;
    if key !in groups' {
      order' := order' + [key];
      groups' := groups'[key := Group(info, [])];
    }
    var grp := groups'[key];
    groups' := groups'[key := grp.(scores := grp.scores + [score])];
    assert groups' == groups[key := grp.(scores := grp.scores + [score])];
  }

  /** The map after the `forEach` has visited every entry, left to right. */
  function GroupAll<D>(es: seq<Entry<D>>): (g: Grouped<D>)
    ensures WellFormed(g)
  {
    if es == [] then Grouped([], map[])
    else
      var g := GroupAll(es[..|es| - 1]);
      InsertWellFormed(g, es[|es| - 1]);
      Insert(g, es[|es| - 1])
  }

  lemma GroupAllSnoc<D>(es: seq<Entry<D>>, e: Entry<D>)
    ensures GroupAll(es + [e]) == Insert(GroupAll(es), e)
  {
    assert (es + [e])[..|es|] == es;
  }

  /** One rounded mean per group, in the map's iteration order
      (`Array.from(map.values()).map(...)`). */
  function GroupScores<D>(g: Grouped<D>): (scores: seq<int>)
    requires WellFormed(g)
    ensures |scores| == |g.order|
    ensures forall i :: 0 <= i < |scores| ==>
              var grp := g.groups[g.order[i]].scores;
              && (scores[i] as real) - 0.5 <= Mean(grp) < (scores[i] as real) + 0.5
              && Min(grp) <= scores[i] <= Max(grp)
  {
    seq(|g.order|, i requires 0 <= i < |g.order| => RoundedMean(g.groups[g.order[i]].scores))
  }

  /** The keys of the entries, in entry order. */
  function Keys<D>(es: seq<Entry<D>>): (ks: seq<string>)
    ensures |ks| == |es|
    ensures forall i :: 0 <= i < |es| ==> ks[i] == es[i].key
  {
    seq(|es|, i requires 0 <= i < |es| => es[i].key)
  }

  lemma KeysAppend<D>(es: seq<Entry<D>>, fs: seq<Entry<D>>)
    ensures Keys(es + fs) == Keys(es) + Keys(fs)
  {
  }

  lemma KeysSnoc<D>(es: seq<Entry<D>>, e: Entry<D>)
    ensures Keys(es + [e]) == Keys(es) + [e.key]
  {
  }

  /** The scores of the entries with key `k`, in entry order. */
  function ScoresOf<D>(es: seq<Entry<D>>, k: string): seq<int>
  {
    if es == [] then []
    else ScoresOf(es[..|es| - 1], k) + (if es[|es| - 1].key == k then [es[|es| - 1].score] else [])
  }

  /** The shape of the map: each key once, every group non-empty. */
  ghost predicate WellFormed<D>(g: Grouped<D>)
  {
    && Distinct(g.order)
    && (forall k :: k in g.groups <==> k in g.order)
    && (forall k :: k in g.groups ==> g.groups[k].scores != [])
  }

  /** What the map holds for the entries `es`, stated without the map:
      exactly the keys that occur, ordered by first appearance, each with
      the scores of its entries in order and the data of its first entry. */
  ghost predicate Describes<D>(g: Grouped<D>, es: seq<Entry<D>>)
  {
    && WellFormed(g)
    && (forall k :: k in g.groups <==> k in Keys(es))
    && (forall k :: k in g.groups ==> g.groups[k].scores == ScoresOf(es, k))
    && (forall k :: k in g.groups ==> g.groups[k].first == es[FirstIndex(Keys(es), k)].info)
    && (forall i, j :: 0 <= i < j < |g.order| ==>
          FirstIndex(Keys(es), g.order[i]) < FirstIndex(Keys(es), g.order[j]))
  }

  /** The grouping loop computes the map that `Describes` its entries. */
  lemma {:induction false} GroupAllDescribes<D>(es: seq<Entry<D>>)
    ensures Describes(GroupAll(es), es)
  {
    if es != [] {
      var pre, e := es[..|es| - 1], es[|es| - 1];
      GroupAllDescribes(pre);
      InsertDescribes(GroupAll(pre), pre, e);
      assert pre + [e] == es;
    }
  }

  lemma InsertDescribes<D>(g: Grouped<D>, es: seq<Entry<D>>, e: Entry<D>)
    requires Describes(g, es)
    ensures Describes(Insert(g, e), es + [e])
  {
    var ks := Keys(es);
    KeysSnoc(es, e);
    FirstIndexSnoc(ks, e.key);
    InsertWellFormed(g, e);
    InsertScores(g, es, e);
    InsertFirst(g, es, ks, e);
    InsertOrder(g, ks, e);
  }

  /** Inserting keeps the shape and adds the entry's key. */
  lemma InsertWellFormed<D>(g: Grouped<D>, e: Entry<D>)
    requires WellFormed(g)
    ensures WellFormed(Insert(g, e))
    ensures Insert(g, e).groups.Keys == g.groups.Keys + {e.key}
  {
    var g' := Insert(g, e);
    if e.key !in g.groups {
      assert g'.order == g.order + [e.key];
      forall i, j | 0 <= i < j < |g'.order| ensures g'.order[i] != g'.order[j] {
        if j == |g.order| { assert g.order[i] in g.groups; }
      }
    }
  }

  lemma InsertScores<D>(g: Grouped<D>, es: seq<Entry<D>>, e: Entry<D>)
    requires forall k :: k in g.groups <==> k in Keys(es)
    requires forall k :: k in g.groups ==> g.groups[k].scores == ScoresOf(es, k)
    ensures forall k :: k in Insert(g, e).groups ==>
              Insert(g, e).groups[k].scores == ScoresOf(es + [e], k)
  {
    var es', g' := es + [e], Insert(g, e);
    assert es'[..|es'| - 1] == es;
    forall k | k in g'.groups
      ensures g'.groups[k].scores == ScoresOf(es', k)
    {
      if k != e.key {
        assert ScoresOf(es', k) == ScoresOf(es, k);
      } else if e.key in g.groups {
        assert ScoresOf(es', k) == ScoresOf(es, k) + [e.score];
      } else {
        ScoresOfAbsent(es, k);
        assert ScoresOf(es', k) == [e.score];
      }
    }
  }

  lemma InsertFirst<D>(g: Grouped<D>, es: seq<Entry<D>>, ks: seq<string>, e: Entry<D>)
    requires ks == Keys(es)
    requires forall k :: k in g.groups <==> k in ks
    requires forall k :: k in g.groups ==> g.groups[k].first == es[FirstIndex(ks, k)].info
    ensures forall k :: k in Insert(g, e).groups ==>
              Insert(g, e).groups[k].first == (es + [e])[FirstIndex(ks + [e.key], k)].info
  {
    var g' := Insert(g, e);
    FirstIndexSnoc(ks, e.key);
    forall k | k in g'.groups
      ensures g'.groups[k].first == (es + [e])[FirstIndex(ks + [e.key], k)].info
    {
      if k in g.groups {
        InsertFirstOld(g.groups[k].first, es, ks, e, k);
      }
    }
  }

  lemma InsertFirstOld<D>(first: D, es: seq<Entry<D>>, ks: seq<string>, e: Entry<D>, k: string)
    requires |ks| == |es| && k in ks && first == es[FirstIndex(ks, k)].info
    requires FirstIndex(ks + [e.key], k) == FirstIndex(ks, k)
    ensures first == (es + [e])[FirstIndex(ks + [e.key], k)].info
  {
  }

  lemma InsertOrder<D>(g: Grouped<D>, ks: seq<string>, e: Entry<D>)
    requires forall k :: k in g.groups <==> k in ks
    requires forall k :: k in g.order ==> k in g.groups
    requires forall i, j :: 0 <= i < j < |g.order| ==>
               FirstIndex(ks, g.order[i]) < FirstIndex(ks, g.order[j])
    ensures forall i, j :: 0 <= i < j < |Insert(g, e).order| ==>
              FirstIndex(ks + [e.key], Insert(g, e).order[i])
                < FirstIndex(ks + [e.key], Insert(g, e).order[j])
  {
    var ks', g' := ks + [e.key], Insert(g, e);
    FirstIndexSnoc(ks, e.key);
    forall i, j | 0 <= i < j < |g'.order|
      ensures FirstIndex(ks', g'.order[i]) < FirstIndex(ks', g'.order[j])
    {
      assert g'.order[i] == g.order[i] && g.order[i] in g.groups;
      if j == |g.order| {
        assert g'.order[j] == e.key && e.key !in ks;
      } else {
        assert g'.order[j] == g.order[j] && g.order[j] in g.groups;
      }
    }
  }

  lemma {:induction false} ScoresOfAbsent<D>(es: seq<Entry<D>>, k: string)
    requires k !in Keys(es)
    ensures ScoresOf(es, k) == []
  {
    if es != [] {
      var pre := es[..|es| - 1];
      assert pre + [es[|es| - 1]] == es;
      KeysSnoc(pre, es[|es| - 1]);
      ScoresOfAbsent(pre, k);
    }
  }
}
