/** `src/lib/lessons.ts`: the fixed lesson catalog and the unlock threshold. */
module Lessons {
  import opened Wrappers

  datatype Lesson = Lesson(id: int, name: string, description: string)

  /** `lessons`, in catalog order. */
  const Catalog: seq<Lesson> := [
    Lesson(1, "Fundamentals", "Core vocabulary"),
    Lesson(2, "Essential Verbs", "Common action words"),
    Lesson(3, "Common Phrases", "Everyday expressions"),
    Lesson(4, "Descriptions", "Adjectives & adverbs"),
    Lesson(5, "People & Places", "Nouns for life"),
    Lesson(6, "Time & Numbers", "Temporal vocabulary"),
    Lesson(7, "Connectors", "Conjunctions & prepositions"),
    Lesson(8, "Advanced Verbs", "More action words"),
    Lesson(9, "Abstract Concepts", "Ideas & thoughts")
  ]

  /** `UNLOCK_THRESHOLD`: 80%. */
  const UnlockThreshold: real := 0.8

  /** There are nine lessons, numbered 1 to 9 in catalog order. */
  lemma CatalogIds()
    ensures |Catalog| == 9
    ensures forall i :: 0 <= i < |Catalog| ==> Catalog[i].id == i + 1
  {
  }

  /** No two catalog entries share an id. */
  lemma IdsUnique()
    ensures forall i, j :: 0 <= i < |Catalog| && 0 <= j < |Catalog| && Catalog[i].id == Catalog[j].id ==> i == j
  {
    CatalogIds();
  }

  /** `lessons.find((l) => l.id === id)` over the lessons `ls`. */
  function Find(ls: seq<Lesson>, id: int): (r: Option<Lesson>)
    ensures r.Some? ==> r.value in ls && r.value.id == id
    ensures r.None? ==> forall i :: 0 <= i < |ls| ==> ls[i].id != id
    ensures r.Some? ==> exists i :: 0 <= i < |ls| && ls[i] == r.value && forall j :: 0 <= j < i ==> ls[j].id != id
  {
    if ls == [] then None
    else if ls[0].id == id then Some(ls[0])
    else
      var r := Find(ls[1..], id);
      if r.Some? then
        ghost var i :| 0 <= i < |ls[1..]| && ls[1..][i] == r.value && forall j :: 0 <= j < i ==> ls[1..][j].id != id;
        assert ls[i + 1] == r.value && forall j :: 0 <= j < i + 1 ==> ls[j].id != id;
        r
      else r
  }

  /** In a list whose ids are unique, looking up the id at position `i` finds the lesson there. */
  lemma FindUnique(ls: seq<Lesson>, id: int, i: nat)
    requires i < |ls| && ls[i].id == id
    requires forall a, b :: 0 <= a < |ls| && 0 <= b < |ls| && ls[a].id == ls[b].id ==> a == b
    ensures Find(ls, id) == Some(ls[i])
  {
    var r := Find(ls, id);
    assert r.Some?;
    var k :| 0 <= k < |ls| && ls[k] == r.value && forall j :: 0 <= j < k ==> ls[j].id != id;
  }

  /** Looking a lesson up by id finds exactly the catalog ids 1..9, and the lesson at position id - 1. */
  lemma FindInCatalog(id: int)
    ensures Find(Catalog, id).Some? <==> 1 <= id <= 9
    ensures 1 <= id <= 9 ==> Find(Catalog, id) == Some(Catalog[id - 1])
  {
    CatalogIds();
    IdsUnique();
    if 1 <= id <= 9 {
      FindUnique(Catalog, id, id - 1);
    }
  }

  /** Over the naturals, reaching the threshold means `5 * learned >= 4 * count`. */
  lemma ThresholdAsIntegers(learned: nat, count: nat)
    requires count > 0
    ensures learned as real / count as real >= UnlockThreshold <==> 5 * learned >= 4 * count
  {
    ThresholdAsReals(learned as real, count as real);
  }

  lemma ThresholdAsReals(l: real, c: real)
    requires c > 0.0
    ensures l / c >= 0.8 <==> 5.0 * l >= 4.0 * c
  {
    var q := l / c;
    assert q * c == l;
    if q >= 0.8 {
      ProductNonNegative(q - 0.8, c);
      assert l - 0.8 * c == (q - 0.8) * c;
    } else {
      ProductPositive(0.8 - q, c);
      assert 0.8 * c - l == (0.8 - q) * c;
    }
  }

  lemma ProductNonNegative(a: real, b: real)
    requires a >= 0.0 && b >= 0.0
    ensures a * b >= 0.0
  {
  }

  lemma ProductPositive(a: real, b: real)
    requires a > 0.0 && b > 0.0
    ensures a * b > 0.0
  {
  }
}
