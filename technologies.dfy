/** `src/lib/firebase/services/technologies.ts`: the technology catalog, its usage
    counters (upsert of plus or minus one, never clamped, failures swallowed), the
    creation of a technology, the most-used query's slice, and the technology slug. */
module Technologies {
  import opened Wrappers
  import opened Lists
  import opened Strings
  import opened SlugRules
  import opened ProjectTypes

  /** `TechnologyFormData`. */
  datatype TechnologyFormData = TechnologyFormData(
    name: string, slug: string, category: Option<string>, icon: Option<string>)

  /** A technology document. `form` is `None` for a document that only the usage
      upsert wrote, which then holds nothing but `usageCount`. */
  datatype TechnologyDoc = TechnologyDoc(
    form: Option<TechnologyFormData>, usageCount: int, createdAt: Option<int>)

  /** The message `createTechnology` throws with. */
  const CreateTechnologyFailedMessage: string := "Falha ao criar tecnologia"

  /** The technologies collection, by document id. */
  type Catalog = map<TechId, TechnologyDoc>

  /** The count stored for `id`; an absent document counts as 0, which is what the
      store's `increment` starts from. */
  function UsageOf(docs: Catalog, id: TechId): int {
    if id in docs then docs[id].usageCount else 0
  }

  /** `setDoc(doc(id), {usageCount: increment(delta)}, {merge: true})`: creates the
      document when it is absent, adds `delta` to the count otherwise, and keeps the
      document's other fields. */
  function AddUsage(docs: Catalog, id: TechId, delta: int): (r: Catalog)
    ensures UsageOf(r, id) == UsageOf(docs, id) + delta
    ensures r.Keys == docs.Keys + {id}
    ensures forall t :: t in docs && t != id ==> r[t] == docs[t]
    ensures id in docs ==> r[id].form == docs[id].form && r[id].createdAt == docs[id].createdAt
  {
    docs[id := if id in docs then docs[id].(usageCount := docs[id].usageCount + delta)
               else TechnologyDoc(None, delta, None)]
  }

  /** One `AddUsage` per entry of `ids`, in order: the fan-out
      `Promise.all(ids.map((t) => increment/decrementTechnologyUsage(t)))` run
      one write after the other. */
  function AddUsageAll(docs: Catalog, ids: seq<TechId>, delta: int): Catalog
    decreases |ids|
  {
    if ids == [] then docs
    else AddUsage(AddUsageAll(docs, ids[..|ids| - 1], delta), ids[|ids| - 1], delta)
  }

  /** The fan-out writes exactly the documents its list names, creating the absent ones. */
  lemma {:induction false} AddUsageAllKeys(docs: Catalog, ids: seq<TechId>, delta: int)
    ensures AddUsageAll(docs, ids, delta).Keys == docs.Keys + set x | x in ids
    decreases |ids|
  {
    if ids != [] {
      var init := ids[..|ids| - 1];
      AddUsageAllKeys(docs, init, delta);
      assert ids == init + [ids[|ids| - 1]];
      assert (set x | x in ids) == (set x | x in init) + {ids[|ids| - 1]};
    }
  }

  /** Each count gains `delta` once per occurrence of its id in the list. */
  lemma {:induction false} AddUsageAllUsage(docs: Catalog, ids: seq<TechId>, delta: int, t: TechId)
    ensures UsageOf(AddUsageAll(docs, ids, delta), t) == UsageOf(docs, t) + delta * Count(ids, t)
    decreases |ids|
  {
    if ids != [] {
      var init := ids[..|ids| - 1];
      var last := ids[|ids| - 1];
      AddUsageAllUsage(docs, init, delta, t);
      var mid := AddUsageAll(docs, init, delta);
      assert AddUsageAll(docs, ids, delta) == AddUsage(mid, last, delta);
      assert ids == init + [last];
      CountAppend(init, [last], t);
      var c := Count(init, t);
      if last == t {
        assert Count(ids, t) == c + 1;
        MultiplyStep(delta, c);
      } else {
        assert Count(ids, t) == c;
        assert UsageOf(AddUsage(mid, last, delta), t) == UsageOf(mid, t);
      }
    }
  }

  /** The distributive step of the count argument, kept apart from the map reasoning. */
  lemma MultiplyStep(d: int, c: int)
    ensures d * (c + 1) == d * c + d
  {
  }

  /** Apart from the count, a document keeps its fields; a created one holds only the count. */
  lemma {:induction false} AddUsageAllDoc(docs: Catalog, ids: seq<TechId>, delta: int, t: TechId)
    requires t in AddUsageAll(docs, ids, delta)
    ensures var r := AddUsageAll(docs, ids, delta);
      r[t] == if t in docs then docs[t].(usageCount := UsageOf(r, t)) else TechnologyDoc(None, UsageOf(r, t), None)
    decreases |ids|
  {
    if ids != [] {
      var init := ids[..|ids| - 1];
      var mid := AddUsageAll(docs, init, delta);
      if t in mid {
        AddUsageAllDoc(docs, init, delta, t);
      } else {
        AddUsageAllKeys(docs, init, delta);
      }
    }
  }

  /** Completion order does not matter: the writes of a fan-out commute, so any
      ordering of the same entries leaves the same catalog. */
  lemma AddUsageAllOrderIrrelevant(docs: Catalog, xs: seq<TechId>, ys: seq<TechId>, delta: int)
    requires multiset(xs) == multiset(ys)
    ensures AddUsageAll(docs, xs, delta) == AddUsageAll(docs, ys, delta)
  {
    var a := AddUsageAll(docs, xs, delta);
    var b := AddUsageAll(docs, ys, delta);
    AddUsageAllKeys(docs, xs, delta);
    AddUsageAllKeys(docs, ys, delta);
    assert (set x | x in xs) == (set x | x in ys) by {
      forall x ensures x in xs <==> x in ys {
        assert x in xs <==> x in multiset(xs);
        assert x in ys <==> x in multiset(ys);
      }
    }
    forall t | t in a ensures a[t] == b[t] {
      CountIsMultiplicity(xs, t);
      CountIsMultiplicity(ys, t);
      AddUsageAllUsage(docs, xs, delta, t);
      AddUsageAllUsage(docs, ys, delta, t);
      AddUsageAllDoc(docs, xs, delta, t);
      AddUsageAllDoc(docs, ys, delta, t);
    }
  }

  lemma {:induction false} CountIsMultiplicity(s: seq<TechId>, x: TechId)
    ensures Count(s, x) == multiset(s)[x]
  {
    if s != [] {
      CountIsMultiplicity(s[1..], x);
      assert s == [s[0]] + s[1..];
      assert multiset(s) == multiset{s[0]} + multiset(s[1..]);
    }
  }

  /** An increment followed by a decrement of the same id restores its count. */
  lemma {:induction false} IncrementThenDecrement(docs: Catalog, id: TechId, t: TechId)
    ensures UsageOf(AddUsage(AddUsage(docs, id, 1), id, -1), t) == UsageOf(docs, t)
  {
    if t != id {
      assert t in docs <==> t in AddUsage(AddUsage(docs, id, 1), id, -1);
    }
  }

  /** The in-memory technologies collection. */
  class TechnologyCatalog {
    var docs: Catalog

    constructor (initial: Catalog)
      ensures docs == initial
    {
      docs := initial;
    }

    function UsageCount(id: TechId): int
      reads this
    {
      UsageOf(docs, id)
    }

    /** `incrementTechnologyUsage(id)`. The store's answer is `writeSucceeds`; a
        failed write is logged and swallowed, so the caller sees no error either way. */
    method IncrementTechnologyUsage(id: TechId, writeSucceeds: bool)
      modifies this
      ensures docs == if writeSucceeds then AddUsage(old(docs), id, 1) else old(docs)
      ensures UsageCount(id) == old(UsageCount(id)) + (if writeSucceeds then 1 else 0)
      ensures forall t :: t != id ==> UsageCount(t) == old(UsageCount(t))
    {
      if writeSucceeds {
        docs := AddUsage(docs, id, 1);
      }
    }

    /** `decrementTechnologyUsage(id)`: no clamp at zero, so an absent or zero count
        becomes -1. A failed write is swallowed as for the increment. */
    method DecrementTechnologyUsage(id: TechId, writeSucceeds: bool)
      modifies this
      ensures docs == if writeSucceeds then AddUsage(old(docs), id, -1) else old(docs)
      ensures UsageCount(id) == old(UsageCount(id)) - (if writeSucceeds then 1 else 0)
      ensures forall t :: t != id ==> UsageCount(t) == old(UsageCount(t))
    {
      if writeSucceeds {
        docs := AddUsage(docs, id, -1);
      }
    }

    /** `createTechnology(data)`: `addDoc` under the fresh id the store generates
        (`newId`), with `usageCount` 0 and the creation time `now`. No count changes
        anywhere, since the new document was absent and so counted 0 before.
        `stored` says whether `addDoc` succeeds; a rejected one writes nothing and
        the call fails. */
    method CreateTechnology(data: TechnologyFormData, newId: TechId, now: int, stored: bool)
      returns (r: Result<TechId, string>)
      requires newId !in docs
      modifies this
      ensures r == if stored then Success(newId) else Failure(CreateTechnologyFailedMessage)
      ensures docs == if stored then old(docs)[newId := TechnologyDoc(Some(data), 0, Some(now))] else old(docs)
      ensures forall t :: UsageCount(t) == old(UsageCount(t))
    {
      if !stored {
        return Failure(CreateTechnologyFailedMessage);
      }
      docs := docs[newId := TechnologyDoc(Some(data), 0, Some(now))];
      r := Success(newId);
    }

    /** `getTechnologyById(id)`: the document, or null when it does not exist. */
    method GetTechnologyById(id: TechId) returns (r: Option<TechnologyDoc>)
      ensures r.Some? <==> id in docs
      ensures r.Some? ==> r.value == docs[id]
    {
      r := if id in docs then Some(docs[id]) else None;
    }
  }

  /** A row of a technologies query: `mapDocToTechnology` joins id and fields. */
  datatype Technology = Technology(id: TechId, doc: TechnologyDoc)

  /** Code-point order on strings, the order the store sorts string fields by. */
  predicate NameAtMost(a: string, b: string)
    decreases |a|
  {
    a == [] || (b != [] && (a[0] < b[0] || (a[0] == b[0] && NameAtMost(a[1..], b[1..]))))
  }

  function NameOf(t: Technology): string {
    if t.doc.form.Some? then t.doc.form.value.name else ""
  }

  /** `where("usageCount", ">", 0)`, and `orderBy("name")` drops documents that have
      no `name` field. */
  predicate Selected(t: Technology) {
    t.doc.usageCount > 0 && t.doc.form.Some?
  }

  /** `orderBy("usageCount", "desc"), orderBy("name", "asc")`. */
  predicate RankedBefore(x: Technology, y: Technology) {
    x.doc.usageCount > y.doc.usageCount
    || (x.doc.usageCount == y.doc.usageCount && NameAtMost(NameOf(x), NameOf(y)))
  }

  /** What the most-used query returns, as the store promises it: only selected
      documents, each a document of the catalog, in rank order. */
  predicate IsMostUsedQueryResult(docs: Catalog, q: seq<Technology>) {
    && (forall i :: 0 <= i < |q| ==> Selected(q[i]) && q[i].id in docs && docs[q[i].id] == q[i].doc)
    && (forall i, j :: 0 <= i < j < |q| ==> RankedBefore(q[i], q[j]))
  }

  /** The default `limit` of `getMostUsedTechnologies`. */
  const DefaultMostUsedLimit: int := 10

  /** `technologies.slice(0, limit)` over the query result `q`, with JavaScript's
      rule for a negative end (counted from the end, clipped at 0). */
  function MostUsed(q: seq<Technology>, limit: int): (r: seq<Technology>)
    ensures |r| <= |q| && r == q[..|r|]
    ensures limit >= 0 ==> |r| == if limit < |q| then limit else |q|
    ensures limit < 0 ==> |r| == if |q| + limit > 0 then |q| + limit else 0
  {
    var end := if limit >= 0 then (if limit < |q| then limit else |q|)
               else (if |q| + limit > 0 then |q| + limit else 0);
    q[..end]
  }

  /** `getMostUsedTechnologies(limit)` returns at most `limit` technologies, each
      with a positive count, ordered by count (descending) and then name; called
      without a limit it returns the first ten, or all when there are fewer. */
  lemma MostUsedIsTopRanked(docs: Catalog, q: seq<Technology>, limit: int)
    requires IsMostUsedQueryResult(docs, q)
    ensures var r := MostUsed(q, limit);
      && (limit >= 0 ==> |r| <= limit)
      && IsMostUsedQueryResult(docs, r)
      && (forall i :: 0 <= i < |r| ==> r[i].doc.usageCount > 0)
    ensures |MostUsed(q, DefaultMostUsedLimit)| == if |q| < DefaultMostUsedLimit then |q| else DefaultMostUsedLimit
  {
  }

  /** `generateTechnologySlug(name)`: the same chain of replacements as the
      project slug. */
  function GenerateTechnologySlug(name: string): (r: string)
    ensures IsSlugText(r)
  {
    var kept := KeepSlugChars(RemoveMarks(Decompose(Lowercase(name))));
    var trimmed := Trim(kept);
    TrimChars(kept);
    var hyphenated := HyphenateWhitespace(trimmed);
    var collapsed := CollapseHyphens(hyphenated);
    collapsed
  }
}
