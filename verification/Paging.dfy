/** Sorted graph lists and the pages that a cursor walks through. */
module Paging {
  import opened Text
  import Json

  // ----- comparators -----

  datatype Ordering = Less | Equal | Greater

  datatype SortOrder = Asc | Desc

  function Reverse(o: Ordering): Ordering {
    match o case Less => Greater case Equal => Equal case Greater => Less
  }

  function CompareInt(left: int, right: int): Ordering {
    if left < right then Less else if left == right then Equal else Greater
  }

  /** `str::cmp`. */
  function CompareText(left: string, right: string): Ordering {
    if left == right then Equal else if Json.KeyLess(left, right) then Less else Greater
  }

  /** `ordered`. */
  function Directed(o: Ordering, order: SortOrder): Ordering {
    match order case Asc => o case Desc => Reverse(o)
  }

  /** `compare_optional`; `compare_optional_f64` is the same over the total order of `f64`. */
  function CompareOptional(left: Option<int>, right: Option<int>, order: SortOrder): Ordering {
    match (left, right)
    case (Some(l), Some(r)) => Directed(CompareInt(l, r), order)
    case (Some(_), None) => Less
    case (None, Some(_)) => Greater
    case (None, None) => Equal
  }

  function ThenWith(o: Ordering, other: Ordering): Ordering {
    if o == Equal then other else o
  }

  datatype Entity = Entity(id: string, title: string, degree: Option<int>, rank: Option<int>)

  datatype EntitySort = EntityById | Degree | EntityRank | Title

  function CompareEntities(left: Entity, right: Entity, sort: EntitySort, order: SortOrder): Ordering {
    var primary := match sort
      case EntityById => Directed(CompareText(left.id, right.id), order)
      case Degree => CompareOptional(left.degree, right.degree, order)
      case EntityRank => CompareOptional(left.rank, right.rank, order)
      case Title => Directed(CompareText(left.title, right.title), order);
    ThenWith(primary, CompareText(left.id, right.id))
  }

  /** A weight is its place in the total order of `f64`. */
  datatype Relationship = Relationship(id: string, source: string, target: string, weight: Option<int>,
      rank: Option<int>)

  datatype RelationshipSort = RelationshipById | Weight | RelationshipRank | Source | Target

  function CompareRelationships(left: Relationship, right: Relationship, sort: RelationshipSort,
      order: SortOrder): Ordering
  {
    var primary := match sort
      case RelationshipById => Directed(CompareText(left.id, right.id), order)
      case Weight => CompareOptional(left.weight, right.weight, order)
      case RelationshipRank => CompareOptional(left.rank, right.rank, order)
      case Source => Directed(CompareText(left.source, right.source), order)
      case Target => Directed(CompareText(left.target, right.target), order);
    ThenWith(primary, CompareText(left.id, right.id))
  }

  /** How three comparisons of a weak order hang together. */
  predicate Chain(xy: Ordering, yz: Ordering, xz: Ordering) {
    && (xy == Equal ==> xz == yz) && (yz == Equal ==> xz == xy)
    && (xy == yz ==> xz == xy)
  }

  lemma TextChain(x: string, y: string, z: string, order: SortOrder)
    ensures Chain(Directed(CompareText(x, y), order), Directed(CompareText(y, z), order),
      Directed(CompareText(x, z), order))
    ensures Directed(CompareText(y, x), order) == Reverse(Directed(CompareText(x, y), order))
  {
    Json.KeyLessTrichotomy(x, y);
    Json.KeyLessTrichotomy(y, z);
    Json.KeyLessTrichotomy(x, z);
    if Json.KeyLess(x, y) && Json.KeyLess(y, z) { Json.KeyLessTransitive(x, y, z); }
    if Json.KeyLess(z, y) && Json.KeyLess(y, x) { Json.KeyLessTransitive(z, y, x); }
  }

  lemma OptionalChain(x: Option<int>, y: Option<int>, z: Option<int>, order: SortOrder)
    ensures Chain(CompareOptional(x, y, order), CompareOptional(y, z, order), CompareOptional(x, z, order))
    ensures CompareOptional(y, x, order) == Reverse(CompareOptional(x, y, order))
  {
  }

  /** Equal elements are the same, comparisons reverse, and they chain: a total order. */
  ghost predicate TotalOrder<T(!new)>(compare: (T, T) -> Ordering, id: T -> string) {
    && (forall x, y :: compare(y, x) == Reverse(compare(x, y)))
    && (forall x, y :: compare(x, y) == Equal ==> id(x) == id(y))
    && (forall x, y, z :: Chain(compare(x, y), compare(y, z), compare(x, z)))
  }

  function EntityOrder(sort: EntitySort, order: SortOrder): (Entity, Entity) -> Ordering {
    (left, right) => CompareEntities(left, right, sort, order)
  }

  function RelationshipOrder(sort: RelationshipSort, order: SortOrder): (Relationship, Relationship) -> Ordering {
    (left, right) => CompareRelationships(left, right, sort, order)
  }

  function EntityId(e: Entity): string { e.id }

  function RelationshipId(r: Relationship): string { r.id }

  lemma EntitiesChain(x: Entity, y: Entity, z: Entity, sort: EntitySort, order: SortOrder)
    ensures Chain(CompareEntities(x, y, sort, order), CompareEntities(y, z, sort, order),
      CompareEntities(x, z, sort, order))
    ensures CompareEntities(y, x, sort, order) == Reverse(CompareEntities(x, y, sort, order))
  {
    TextChain(x.id, y.id, z.id, Asc);
    TextChain(x.id, y.id, z.id, order);
    TextChain(x.title, y.title, z.title, order);
    OptionalChain(x.degree, y.degree, z.degree, order);
    OptionalChain(x.rank, y.rank, z.rank, order);
  }

  lemma RelationshipsChain(x: Relationship, y: Relationship, z: Relationship, sort: RelationshipSort, order: SortOrder)
    ensures Chain(CompareRelationships(x, y, sort, order), CompareRelationships(y, z, sort, order),
      CompareRelationships(x, z, sort, order))
    ensures CompareRelationships(y, x, sort, order) == Reverse(CompareRelationships(x, y, sort, order))
  {
    TextChain(x.id, y.id, z.id, Asc);
    TextChain(x.id, y.id, z.id, order);
    TextChain(x.source, y.source, z.source, order);
    TextChain(x.target, y.target, z.target, order);
    OptionalChain(x.weight, y.weight, z.weight, order);
    OptionalChain(x.rank, y.rank, z.rank, order);
  }

  /** Entities and relationships are totally ordered by every sort in both directions. */
  lemma EntitiesTotallyOrdered(sort: EntitySort, order: SortOrder)
    ensures TotalOrder(EntityOrder(sort, order), EntityId)
  {
    forall x, y, z
      ensures Chain(CompareEntities(x, y, sort, order), CompareEntities(y, z, sort, order),
        CompareEntities(x, z, sort, order))
      ensures CompareEntities(y, x, sort, order) == Reverse(CompareEntities(x, y, sort, order))
    {
      EntitiesChain(x, y, z, sort, order);
    }
  }

  lemma RelationshipsTotallyOrdered(sort: RelationshipSort, order: SortOrder)
    ensures TotalOrder(RelationshipOrder(sort, order), RelationshipId)
  {
    forall x, y, z
      ensures Chain(CompareRelationships(x, y, sort, order), CompareRelationships(y, z, sort, order),
        CompareRelationships(x, z, sort, order))
      ensures CompareRelationships(y, x, sort, order) == Reverse(CompareRelationships(x, y, sort, order))
    {
      RelationshipsChain(x, y, z, sort, order);
    }
  }

  // ----- sorting -----

  function InsertWith<T>(s: seq<T>, compare: (T, T) -> Ordering, e: T): (r: seq<T>)
    ensures multiset(r) == multiset(s) + multiset{e}
  {
    if s == [] then [e]
    else
      var most, last := s[..|s| - 1], s[|s| - 1];
      assert s == most + [last];
      if compare(last, e) != Greater then s + [e] else InsertWith(most, compare, e) + [last]
  }

  /** The stable `sort_by`. */
  function SortWith<T>(s: seq<T>, compare: (T, T) -> Ordering): (r: seq<T>)
    ensures multiset(r) == multiset(s)
  {
    if s == [] then []
    else
      assert s == s[..|s| - 1] + [s[|s| - 1]];
      InsertWith(SortWith(s[..|s| - 1], compare), compare, s[|s| - 1])
  }

  ghost predicate Sorted<T>(s: seq<T>, compare: (T, T) -> Ordering) {
    forall i, j :: 0 <= i < j < |s| ==> compare(s[i], s[j]) != Greater
  }

  ghost predicate DistinctIds<T>(s: seq<T>, id: T -> string) {
    forall i, j :: 0 <= i < j < |s| ==> id(s[i]) != id(s[j])
  }

  lemma InsertedElements<T(!new)>(s: seq<T>, compare: (T, T) -> Ordering, e: T)
    ensures forall x :: x in InsertWith(s, compare, e) <==> x in s || x == e
  {
    assert forall x :: x in InsertWith(s, compare, e) <==> x in multiset(InsertWith(s, compare, e));
    assert forall x :: x in s <==> x in multiset(s);
  }

  lemma {:induction false} InsertSorts<T(!new)>(s: seq<T>, compare: (T, T) -> Ordering, id: T -> string, e: T)
    requires TotalOrder(compare, id) && Sorted(s, compare)
    ensures Sorted(InsertWith(s, compare, e), compare)
  {
    if s != [] {
      var most, last := s[..|s| - 1], s[|s| - 1];
      if compare(last, e) == Greater {
        InsertSorts(most, compare, id, e);
        InsertedElements(most, compare, e);
        var front := InsertWith(most, compare, e);
        forall i | 0 <= i < |front| ensures compare(front[i], last) != Greater {
          assert front[i] in front;
          if front[i] != e {
            var k :| 0 <= k < |most| && most[k] == front[i];
            assert compare(s[k], s[|s| - 1]) != Greater;
          }
        }
      } else {
        forall i | 0 <= i < |s| ensures compare(s[i], e) != Greater {
          assert Chain(compare(s[i], last), compare(last, e), compare(s[i], e));
          assert compare(last, last) == Reverse(compare(last, last));
        }
      }
    }
  }

  lemma {:induction false} SortSorts<T(!new)>(s: seq<T>, compare: (T, T) -> Ordering, id: T -> string)
    requires TotalOrder(compare, id)
    ensures Sorted(SortWith(s, compare), compare)
  {
    if s != [] {
      SortSorts(s[..|s| - 1], compare, id);
      InsertSorts(SortWith(s[..|s| - 1], compare), compare, id, s[|s| - 1]);
    }
  }

  lemma SameIdSameElement<T>(s: seq<T>, id: T -> string, x: T, y: T)
    requires DistinctIds(s, id) && x in s && y in s && id(x) == id(y)
    ensures x == y
  {
  }

  /** Elements of the list that compare equal are the same element. */
  ghost predicate Strict<T>(s: seq<T>, compare: (T, T) -> Ordering) {
    forall x, y :: x in s && y in s && compare(x, y) != Greater && compare(y, x) != Greater ==> x == y
  }

  lemma DistinctStrict<T(!new)>(s: seq<T>, compare: (T, T) -> Ordering, id: T -> string)
    requires TotalOrder(compare, id) && DistinctIds(s, id)
    ensures Strict(s, compare)
  {
    forall x, y | x in s && y in s && compare(x, y) != Greater && compare(y, x) != Greater ensures x == y {
      assert compare(y, x) == Reverse(compare(x, y));
      SameIdSameElement(s, id, x, y);
    }
  }

  /** Two sorted orders of the same elements end with the same one. */
  lemma SameLast<T(!new)>(s: seq<T>, t: seq<T>, compare: (T, T) -> Ordering)
    requires Strict(s, compare) && s != []
    requires Sorted(s, compare) && Sorted(t, compare) && multiset(s) == multiset(t)
    ensures t != [] && s[|s| - 1] == t[|t| - 1]
  {
    assert s[|s| - 1] in multiset(t);
    var x, y := s[|s| - 1], t[|t| - 1];
    assert y in multiset(s);
    var i :| 0 <= i < |s| && s[i] == y;
    var j :| 0 <= j < |t| && t[j] == x;
    assert i < |s| - 1 ==> compare(y, x) != Greater;
    assert j < |t| - 1 ==> compare(x, y) != Greater;
  }

  lemma FrontMultiset<T>(s: seq<T>)
    requires s != []
    ensures multiset(s[..|s| - 1]) == multiset(s) - multiset{s[|s| - 1]}
  {
    assert s == s[..|s| - 1] + [s[|s| - 1]];
  }

  lemma FrontSorted<T>(s: seq<T>, compare: (T, T) -> Ordering)
    requires s != [] && Sorted(s, compare)
    ensures Sorted(s[..|s| - 1], compare)
    ensures Strict(s, compare) ==> Strict(s[..|s| - 1], compare)
    ensures s == s[..|s| - 1] + [s[|s| - 1]]
  {
  }

  lemma {:induction false} StrictUnique<T(!new)>(s: seq<T>, t: seq<T>, compare: (T, T) -> Ordering)
    requires Strict(s, compare) && Sorted(s, compare) && Sorted(t, compare) && multiset(s) == multiset(t)
    ensures s == t
  {
    if s == [] {
      assert |t| == |multiset(t)| == |multiset(s)|;
    } else {
      SameLast(s, t, compare);
      FrontMultiset(s);
      FrontMultiset(t);
      FrontSorted(s, compare);
      FrontSorted(t, compare);
      StrictUnique(s[..|s| - 1], t[..|t| - 1], compare);
    }
  }

  /** A list with distinct ids has exactly one sorted order. */
  lemma SortedUnique<T(!new)>(s: seq<T>, t: seq<T>, compare: (T, T) -> Ordering, id: T -> string)
    requires TotalOrder(compare, id) && DistinctIds(s, id)
    requires Sorted(s, compare) && Sorted(t, compare) && multiset(s) == multiset(t)
    ensures s == t
  {
    DistinctStrict(s, compare, id);
    StrictUnique(s, t, compare);
  }

  /** So the order in which entities were stored does not matter. */
  lemma EntitySortIndependent(s: seq<Entity>, t: seq<Entity>, sort: EntitySort, order: SortOrder)
    requires multiset(s) == multiset(t) && DistinctIds(s, EntityId)
    ensures SortWith(s, EntityOrder(sort, order)) == SortWith(t, EntityOrder(sort, order))
  {
    var compare := EntityOrder(sort, order);
    EntitiesTotallyOrdered(sort, order);
    SortSorts(s, compare, EntityId);
    SortSorts(t, compare, EntityId);
    PermutedDistinct(s, SortWith(s, compare), EntityId);
    SortedUnique(SortWith(s, compare), SortWith(t, compare), compare, EntityId);
  }

  lemma RelationshipSortIndependent(s: seq<Relationship>, t: seq<Relationship>, sort: RelationshipSort,
      order: SortOrder)
    requires multiset(s) == multiset(t) && DistinctIds(s, RelationshipId)
    ensures SortWith(s, RelationshipOrder(sort, order)) == SortWith(t, RelationshipOrder(sort, order))
  {
    var compare := RelationshipOrder(sort, order);
    RelationshipsTotallyOrdered(sort, order);
    SortSorts(s, compare, RelationshipId);
    SortSorts(t, compare, RelationshipId);
    PermutedDistinct(s, SortWith(s, compare), RelationshipId);
    SortedUnique(SortWith(s, compare), SortWith(t, compare), compare, RelationshipId);
  }

  lemma PermutedDistinct<T(!new)>(s: seq<T>, t: seq<T>, id: T -> string)
    requires DistinctIds(s, id) && multiset(s) == multiset(t)
    ensures DistinctIds(t, id)
  {
    forall i, j | 0 <= i < j < |t| ensures id(t[i]) != id(t[j]) {
      if id(t[i]) == id(t[j]) {
        assert t[i] in multiset(t) && t[j] in multiset(t);
        SameIdSameElement(s, id, t[i], t[j]);
        assert t == t[..i] + [t[i]] + t[i + 1..j] + [t[j]] + t[j + 1..];
        assert multiset(s)[t[i]] >= 2;
        Once(s, id, t[i]);
      }
    }
  }

  lemma {:induction false} Once<T>(s: seq<T>, id: T -> string, x: T)
    requires DistinctIds(s, id)
    ensures multiset(s)[x] <= 1
  {
    if s != [] {
      assert s == s[..|s| - 1] + [s[|s| - 1]];
      Once(s[..|s| - 1], id, x);
      assert s[|s| - 1] !in s[..|s| - 1];
    }
  }

  /** Entities without the value come last, ascending and descending. */
  lemma MissingLast(s: seq<Entity>, sort: EntitySort, order: SortOrder, i: nat, j: nat)
    requires i < j < |s| && sort in [Degree, EntityRank]
    ensures var r := SortWith(s, EntityOrder(sort, order));
      |r| == |s| &&
      (if sort == Degree then r[i].degree.None? ==> r[j].degree.None? else r[i].rank.None? ==> r[j].rank.None?)
  {
    var r := SortWith(s, EntityOrder(sort, order));
    assert |r| == |multiset(r)| == |multiset(s)| == |s|;
    EntitiesTotallyOrdered(sort, order);
    SortSorts(s, EntityOrder(sort, order), EntityId);
    assert EntityOrder(sort, order)(r[i], r[j]) != Greater;
  }

  /** So do relationships without a weight or a rank. */
  lemma RelationshipsMissingLast(s: seq<Relationship>, sort: RelationshipSort, order: SortOrder, i: nat, j: nat)
    requires i < j < |s| && sort in [Weight, RelationshipRank]
    ensures var r := SortWith(s, RelationshipOrder(sort, order));
      |r| == |s| &&
      (if sort == Weight then r[i].weight.None? ==> r[j].weight.None? else r[i].rank.None? ==> r[j].rank.None?)
  {
    var r := SortWith(s, RelationshipOrder(sort, order));
    assert |r| == |multiset(r)| == |multiset(s)| == |s|;
    RelationshipsTotallyOrdered(sort, order);
    SortSorts(s, RelationshipOrder(sort, order), RelationshipId);
    assert RelationshipOrder(sort, order)(r[i], r[j]) != Greater;
  }

  /** The stable insertion of one item after the other. */
  method SortedBy<T>(items: seq<T>, compare: (T, T) -> Ordering) returns (sorted: seq<T>)
    ensures sorted == SortWith(items, compare) && |sorted| == |items|
  {
    sorted := [];
    for n := 0 to |items|
      invariant sorted == SortWith(items[..n], compare)
    {
      assert items[..n + 1][..n] == items[..n];
      sorted := InsertWith(sorted, compare, items[n]);
    }
    assert items[..|items|] == items;
    assert |sorted| == |multiset(sorted)| == |multiset(items)|;
  }

  /** `sort_entities`. */
  method SortEntities(items: array<Entity>, sort: EntitySort, order: SortOrder)
    modifies items
    ensures items[..] == SortWith(old(items[..]), EntityOrder(sort, order))
    ensures Sorted(items[..], EntityOrder(sort, order))
  {
    EntitiesTotallyOrdered(sort, order);
    SortSorts(items[..], EntityOrder(sort, order), EntityId);
    var sorted := SortedBy(items[..], EntityOrder(sort, order));
    forall k | 0 <= k < items.Length {
      items[k] := sorted[k];
    }
    assert items[..] == sorted;
  }

  /** `sort_relationships`. */
  method SortRelationships(items: array<Relationship>, sort: RelationshipSort, order: SortOrder)
    modifies items
    ensures items[..] == SortWith(old(items[..]), RelationshipOrder(sort, order))
    ensures Sorted(items[..], RelationshipOrder(sort, order))
  {
    RelationshipsTotallyOrdered(sort, order);
    SortSorts(items[..], RelationshipOrder(sort, order), RelationshipId);
    var sorted := SortedBy(items[..], RelationshipOrder(sort, order));
    forall k | 0 <= k < items.Length {
      items[k] := sorted[k];
    }
    assert items[..] == sorted;
  }

  // ----- pages -----

  datatype Page<T> = Page(items: seq<T>, nextCursor: Option<string>)

  const DEFAULT_PAGE_LIMIT := 50
  const MAX_PAGE_LIMIT := 200
  const MAX_ID_BYTES := 256

  /** `valid_id`: ASCII letters, digits and `-_.:`. */
  predicate ValidId(id: string) {
    && id != "" && |id| <= MAX_ID_BYTES
    && forall k | 0 <= k < |id| ::
         '0' <= id[k] <= '9' || 'a' <= id[k] <= 'z' || 'A' <= id[k] <= 'Z' || id[k] in "-_.:"
  }

  /** The limit and cursor checks of `validated_page`. */
  function ValidatedPage(limit: Option<nat>, after: Option<string>): Option<nat> {
    var chosen := if limit.Some? then limit.value else DEFAULT_PAGE_LIMIT;
    if !(1 <= chosen <= MAX_PAGE_LIMIT) || (after.Some? && !ValidId(after.value)) then None else Some(chosen)
  }

  function PositionOf<T>(items: seq<T>, id: T -> string, cursor: string): (k: nat)
    ensures k <= |items|
    ensures k < |items| ==> id(items[k]) == cursor
    ensures forall i :: 0 <= i < k ==> id(items[i]) != cursor
  {
    if items == [] || id(items[0]) == cursor then 0
    else
      assert items == [items[0]] + items[1..];
      1 + PositionOf(items[1..], id, cursor)
  }

  /** Where a page starts: behind the cursor, or at the end when there is no such item. */
  function StartOf<T>(items: seq<T>, id: T -> string, after: Option<string>): (start: nat)
    ensures start <= |items|
  {
    if after.None? then 0
    else
      var k := PositionOf(items, id, after.value);
      if k < |items| then k + 1 else |items|
  }

  /** The items from `start`, at most `limit`, and the id of the last one when there are more. */
  function PageFrom<T>(items: seq<T>, id: T -> string, start: nat, limit: nat): Page<T>
    requires start <= |items|
  {
    if |items| - start <= limit then Page(items[start..], None)
    else Page(items[start..start + limit], if limit == 0 then None else Some(id(items[start + limit - 1])))
  }

  /** `paginate`. */
  method Paginate<T>(items: seq<T>, after: Option<string>, limit: nat, id: T -> string) returns (page: Page<T>)
    ensures page == PageFrom(items, id, StartOf(items, id, after), limit)
  {
    var start := 0;
    if after.Some? {
      var index := 0;
      while index < |items| && id(items[index]) != after.value
        invariant 0 <= index <= |items|
        invariant forall i :: 0 <= i < index ==> id(items[i]) != after.value
      {
        index := index + 1;
      }
      start := if index < |items| then index + 1 else |items|;
    }
    var taken := if |items| - start > limit + 1 then items[start..start + limit + 1] else items[start..];
    var hasMore := |taken| > limit;
    if hasMore {
      taken := taken[..limit];
    }
    page := Page(taken, if hasMore && taken != [] then Some(id(taken[|taken| - 1])) else None);
  }

  lemma CursorOf<T>(items: seq<T>, id: T -> string, k: nat)
    requires DistinctIds(items, id) && k < |items|
    ensures StartOf(items, id, Some(id(items[k]))) == k + 1
  {
    var p := PositionOf(items, id, id(items[k]));
    assert p <= k;
  }

  /** The pages a client gets by following cursors, or none when a cursor is refused. */
  ghost function Walk<T>(items: seq<T>, id: T -> string, after: Option<string>, limit: nat): Option<seq<T>>
    requires DistinctIds(items, id) && limit >= 1
    decreases |items| - StartOf(items, id, after)
  {
    if ValidatedPage(Some(limit), after).None? then None
    else
      var start := StartOf(items, id, after);
      var page := PageFrom(items, id, start, limit);
      if page.nextCursor.None? then Some(page.items)
      else
        CursorOf(items, id, start + limit - 1);
        match Walk(items, id, page.nextCursor, limit)
        case None => None
        case Some(more) => Some(page.items + more)
  }

  /** The cursors on the way from `start` are ids that the server takes. */
  predicate CursorsValid<T>(items: seq<T>, id: T -> string, start: nat, limit: nat)
    requires limit >= 1
    decreases if start <= |items| then |items| - start else 0
  {
    start + limit >= |items| || (ValidId(id(items[start + limit - 1])) && CursorsValid(items, id, start + limit, limit))
  }

  /** A page with more behind it ends with the cursor of the next page. */
  lemma NextPage<T>(items: seq<T>, id: T -> string, start: nat, limit: nat)
    requires DistinctIds(items, id) && limit >= 1 && start + limit < |items|
    ensures var page := PageFrom(items, id, start, limit);
      && page.nextCursor == Some(id(items[start + limit - 1]))
      && StartOf(items, id, page.nextCursor) == start + limit
      && page.items + items[start + limit..] == items[start..]
  {
    CursorOf(items, id, start + limit - 1);
  }

  lemma WalkEnds<T>(items: seq<T>, id: T -> string, after: Option<string>, limit: nat)
    requires DistinctIds(items, id) && 1 <= limit <= MAX_PAGE_LIMIT && (after.Some? ==> ValidId(after.value))
    requires StartOf(items, id, after) + limit >= |items|
    ensures Walk(items, id, after, limit) == Some(items[StartOf(items, id, after)..])
  {
  }

  lemma WalkGoesOn<T>(items: seq<T>, id: T -> string, after: Option<string>, limit: nat)
    requires DistinctIds(items, id) && 1 <= limit <= MAX_PAGE_LIMIT && (after.Some? ==> ValidId(after.value))
    requires StartOf(items, id, after) + limit < |items|
    ensures var page := PageFrom(items, id, StartOf(items, id, after), limit);
      var more := Walk(items, id, page.nextCursor, limit);
      Walk(items, id, after, limit) == if more.None? then None else Some(page.items + more.value)
  {
  }

  lemma WalkRefused<T>(items: seq<T>, id: T -> string, cursor: string, limit: nat)
    requires DistinctIds(items, id) && limit >= 1 && !ValidId(cursor)
    ensures Walk(items, id, Some(cursor), limit).None?
  {
  }

  /** What is left to walk from `start`. */
  ghost function Remaining<T>(items: seq<T>, id: T -> string, start: nat, limit: nat): Option<seq<T>>
    requires limit >= 1 && start <= |items|
  {
    if CursorsValid(items, id, start, limit) then Some(items[start..]) else None
  }

  lemma RemainingStep<T>(items: seq<T>, id: T -> string, start: nat, limit: nat)
    requires limit >= 1 && start + limit < |items|
    ensures var more := Remaining(items, id, start + limit, limit);
      Remaining(items, id, start, limit)
      == if !ValidId(id(items[start + limit - 1])) || more.None? then None
        else Some(items[start..start + limit] + more.value)
  {
    assert items[start..start + limit] + items[start + limit..] == items[start..];
  }

  lemma WalkStep<T>(items: seq<T>, id: T -> string, after: Option<string>, start: nat, limit: nat)
    requires DistinctIds(items, id) && 1 <= limit <= MAX_PAGE_LIMIT && (after.Some? ==> ValidId(after.value))
    requires start == StartOf(items, id, after) && start + limit < |items|
    requires var cursor := id(items[start + limit - 1]);
      ValidId(cursor) ==> Walk(items, id, Some(cursor), limit) == Remaining(items, id, start + limit, limit)
    ensures Walk(items, id, after, limit) == Remaining(items, id, start, limit)
  {
    var cursor := id(items[start + limit - 1]);
    NextPage(items, id, start, limit);
    WalkGoesOn(items, id, after, limit);
    RemainingStep(items, id, start, limit);
    if !ValidId(cursor) {
      WalkRefused(items, id, cursor, limit);
    }
  }

  lemma {:induction false} WalkFrom<T>(items: seq<T>, id: T -> string, after: Option<string>, limit: nat)
    requires DistinctIds(items, id) && 1 <= limit <= MAX_PAGE_LIMIT && (after.Some? ==> ValidId(after.value))
    ensures Walk(items, id, after, limit) == Remaining(items, id, StartOf(items, id, after), limit)
    decreases |items| - StartOf(items, id, after)
  {
    var start := StartOf(items, id, after);
    if start + limit >= |items| {
      WalkEnds(items, id, after, limit);
    } else {
      var cursor := id(items[start + limit - 1]);
      CursorOf(items, id, start + limit - 1);
      if ValidId(cursor) {
        WalkFrom(items, id, Some(cursor), limit);
      }
      WalkStep(items, id, after, start, limit);
    }
  }

  /**
   * Following the cursors from the first page ends and visits every item once, in
   * order, exactly when every cursor handed out is an id the server takes back.
   */
  lemma WalkVisitsAll<T>(items: seq<T>, id: T -> string, limit: nat)
    requires DistinctIds(items, id) && 1 <= limit <= MAX_PAGE_LIMIT
    ensures Walk(items, id, None, limit) == Some(items) <==> CursorsValid(items, id, 0, limit)
    ensures Walk(items, id, None, limit).None? <==> !CursorsValid(items, id, 0, limit)
  {
    WalkFrom(items, id, None, limit);
    assert items[0..] == items;
  }

  /** With pages of one, an entity whose id holds a blank ends the walk: its cursor is refused. */
  lemma BlankIdStopsWalk(first: Entity, second: Entity)
    requires ' ' in first.id && Json.KeyLess(first.id, second.id)
    ensures var items := [first, second];
      && DistinctIds(items, EntityId) && Sorted(items, EntityOrder(EntityById, Asc))
      && Walk(items, EntityId, None, 1).None?
  {
    var items := [first, second];
    Json.KeyLessTrichotomy(first.id, second.id);
    assert DistinctIds(items, EntityId);
    var k :| 0 <= k < |first.id| && first.id[k] == ' ';
    assert !ValidId(EntityId(items[0]));
    WalkVisitsAll(items, EntityId, 1);
  }
}
