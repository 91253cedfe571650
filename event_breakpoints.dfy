/**
 * The list of event breakpoints the editor can offer: every thread that
 * registers announces its categories of events, and the adapter merges
 * them into one list, sorted by name, which it then publishes.
 */
module EventBreakpoints {
  import opened Wrappers

  // ---- ordering by name ----

  /** `compareStrings(a, b) <= 0`: lexicographic order by code point. */
  predicate Le(a: string, b: string)
  {
    a == [] || (b != [] && (a[0] < b[0] || (a[0] == b[0] && Le(a[1..], b[1..]))))
  }

  lemma {:induction false} LeTotal(a: string, b: string)
    ensures Le(a, b) || Le(b, a)
  {
    if a != [] && b != [] && a[0] == b[0] {
      LeTotal(a[1..], b[1..]);
    }
  }

  /** Adjacent elements are in order of their keys. */
  predicate SortedBy<T>(s: seq<T>, key: T -> string)
  {
    forall i :: 0 < i < |s| ==> Le(key(s[i - 1]), key(s[i]))
  }

  /** Puts `x` after every element of the sorted `s` whose key is not above its own. */
  function InsertBy<T>(s: seq<T>, x: T, key: T -> string): seq<T>
  {
    if s == [] || Le(key(s[|s| - 1]), key(x)) then s + [x]
    else InsertBy(s[..|s| - 1], x, key) + [s[|s| - 1]]
  }

  /** A stable sort by key, as `Array.prototype.sort` with `compareStrings` on the keys. */
  function SortBy<T>(s: seq<T>, key: T -> string): seq<T>
  {
    if s == [] then [] else InsertBy(SortBy(s[..|s| - 1], key), s[|s| - 1], key)
  }

  lemma {:induction false} InsertByFacts<T>(s: seq<T>, x: T, key: T -> string)
    ensures multiset(InsertBy(s, x, key)) == multiset(s) + multiset{x}
    ensures |InsertBy(s, x, key)| == |s| + 1
    ensures var r := InsertBy(s, x, key); r[|r| - 1] == x || (s != [] && r[|r| - 1] == s[|s| - 1])
  {
    if s != [] && !Le(key(s[|s| - 1]), key(x)) {
      var init := s[..|s| - 1];
      InsertByFacts(init, x, key);
      assert s == init + [s[|s| - 1]];
    }
  }

  lemma {:induction false} InsertBySorted<T>(s: seq<T>, x: T, key: T -> string)
    requires SortedBy(s, key)
    ensures SortedBy(InsertBy(s, x, key), key)
  {
    if s != [] && !Le(key(s[|s| - 1]), key(x)) {
      var init, last := s[..|s| - 1], s[|s| - 1];
      assert SortedBy(init, key) by {
        forall i | 0 < i < |init| ensures Le(key(init[i - 1]), key(init[i])) {
          assert init[i - 1] == s[i - 1] && init[i] == s[i];
        }
      }
      InsertBySorted(init, x, key);
      InsertByFacts(init, x, key);
      var r := InsertBy(init, x, key);
      LeTotal(key(last), key(x));
      assert Le(key(r[|r| - 1]), key(last)) by {
        if r[|r| - 1] != x {
          assert init != [] && r[|r| - 1] == s[|s| - 2];
        }
      }
    }
  }

  /** The sort yields its elements in order of their keys. */
  lemma {:induction false} SortBySorted<T>(s: seq<T>, key: T -> string)
    ensures SortedBy(SortBy(s, key), key)
  {
    if s != [] {
      SortBySorted(s[..|s| - 1], key);
      InsertBySorted(SortBy(s[..|s| - 1], key), s[|s| - 1], key);
    }
  }

  /** The sort is a permutation. */
  lemma {:induction false} SortByPermutes<T>(s: seq<T>, key: T -> string)
    ensures multiset(SortBy(s, key)) == multiset(s) && |SortBy(s, key)| == |s|
  {
    if s != [] {
      var init := s[..|s| - 1];
      SortByPermutes(init, key);
      InsertByFacts(SortBy(init, key), s[|s| - 1], key);
      assert s == init + [s[|s| - 1]];
    }
  }

  /** A permutation keeps which elements there are. */
  lemma SortByMembers<T>(s: seq<T>, key: T -> string, x: T)
    ensures x in SortBy(s, key) <==> x in s
  {
    SortByPermutes(s, key);
    assert x in multiset(SortBy(s, key)) <==> x in multiset(s);
  }

  /** No two elements share a key. */
  predicate Distinct<T>(s: seq<T>, f: T -> string)
  {
    forall i, j :: 0 <= i < j < |s| ==> f(s[i]) != f(s[j])
  }

  lemma {:induction false} InsertByDistinct<T>(s: seq<T>, x: T, key: T -> string, f: T -> string)
    requires Distinct(s, f) && forall y :: y in s ==> f(y) != f(x)
    ensures Distinct(InsertBy(s, x, key), f)
  {
    if s != [] && !Le(key(s[|s| - 1]), key(x)) {
      var init, last := s[..|s| - 1], s[|s| - 1];
      assert forall y :: y in init ==> y in s;
      InsertByDistinct(init, x, key, f);
      InsertByFacts(init, x, key);
      var r := InsertBy(init, x, key);
      forall y | y in r ensures f(y) != f(last) {
        assert y in multiset(init) + multiset{x};
        if y != x {
          var i :| 0 <= i < |init| && init[i] == y;
          assert s[i] == y;
        }
      }
      var r' := r + [last];
      forall i, j | 0 <= i < j < |r'| ensures f(r'[i]) != f(r'[j]) {
        if j == |r| {
          assert r'[i] == r[i] && r[i] in r;
        } else {
          assert r'[i] == r[i] && r'[j] == r[j];
        }
      }
    } else {
      var r' := s + [x];
      forall i, j | 0 <= i < j < |r'| ensures f(r'[i]) != f(r'[j]) {
        if j == |s| {
          assert r'[i] == s[i] && s[i] in s;
        } else {
          assert r'[i] == s[i] && r'[j] == s[j];
        }
      }
    }
  }

  /** Sorting keeps keys distinct. */
  lemma {:induction false} SortByDistinct<T>(s: seq<T>, key: T -> string, f: T -> string)
    requires Distinct(s, f)
    ensures Distinct(SortBy(s, key), f)
  {
    if s != [] {
      var init, last := s[..|s| - 1], s[|s| - 1];
      SortByDistinct(init, key, f);
      forall y | y in SortBy(init, key) ensures f(y) != f(last) {
        SortByMembers(init, key, y);
        var i :| 0 <= i < |init| && init[i] == y;
        assert s[i] == y;
      }
      InsertByDistinct(SortBy(init, key), last, key, f);
    }
  }

  // ---- the merged list ----

  /** An event breakpoint as the editor sees it. */
  datatype EventEntry = EventEntry(name: string, id: string)

  /** A category of event breakpoints as the editor sees it. */
  datatype Category = Category(name: string, events: seq<EventEntry>)

  /** An event breakpoint as a thread announces it, with its `type`. */
  datatype AvailableEvent = AvailableEvent(id: string, name: string, kind: string)

  /** A category as a thread announces it. */
  datatype AvailableCategory = AvailableCategory(name: string, events: seq<AvailableEvent>)

  function EventName(e: EventEntry): string { e.name }
  function EventId(e: EventEntry): string { e.id }
  function CategoryName(c: Category): string { c.name }

  /** The `{ name, id }` projection of announced events, in order. */
  function Project(events: seq<AvailableEvent>): (r: seq<EventEntry>)
    ensures |r| == |events| && forall k :: 0 <= k < |events| ==> r[k] == EventEntry(events[k].name, events[k].id)
  {
    seq(|events|, k requires 0 <= k < |events| => EventEntry(events[k].name, events[k].id))
  }

  /** `find` by name: the index of the first category with that name. */
  function FindCategory(cats: seq<Category>, name: string): (r: Option<nat>)
    ensures r.Some? ==> r.value < |cats| && cats[r.value].name == name && forall k :: 0 <= k < r.value ==> cats[k].name != name
    ensures r.None? ==> forall k :: 0 <= k < |cats| ==> cats[k].name != name
  {
    if cats == [] then None
    else if cats[0].name == name then Some(0)
    else match FindCategory(cats[1..], name) {
      case None => None
      case Some(k) => Some(k + 1)
    }
  }

  /** Whether some event has the id. */
  predicate HasId(events: seq<EventEntry>, id: string)
  {
    exists k :: 0 <= k < |events| && events[k].id == id
  }

  /**
   * The inner loop over a known category: appends each announced event
   * whose id is not there yet, and says whether one was appended.
   */
  function AddEvents(events: seq<EventEntry>, news: seq<AvailableEvent>): (seq<EventEntry>, bool)
  {
    if news == [] then (events, false)
    else
      var (es, added) := AddEvents(events, news[..|news| - 1]);
      var e := news[|news| - 1];
      if HasId(es, e.id) then (es, added) else (es + [EventEntry(e.name, e.id)], true)
  }

  /** One announced category: appended when its name is new, else merged into the known one. Also says whether it was appended. */
  function MergeCategory(cats: seq<Category>, nc: AvailableCategory): (seq<Category>, bool)
  {
    match FindCategory(cats, nc.name)
    case None => (cats + [Category(nc.name, Project(nc.events))], true)
    case Some(k) =>
      var (es, added) := AddEvents(cats[k].events, nc.events);
      (cats[k := Category(cats[k].name, if added then SortBy(es, EventName) else es)], false)
  }

  /** The outer loop: each announced category in order, and whether any was appended. */
  function MergeAll(cats: seq<Category>, news: seq<AvailableCategory>): (seq<Category>, bool)
  {
    if news == [] then (cats, false)
    else
      var (cs, added) := MergeAll(cats, news[..|news| - 1]);
      var (cs', added') := MergeCategory(cs, news[|news| - 1]);
      (cs', added || added')
  }

  /** The whole handler: the merge, then the categories sorted by name when one was appended. */
  function Merged(cats: seq<Category>, news: seq<AvailableCategory>): seq<Category>
  {
    var (cs, added) := MergeAll(cats, news);
    if added then SortBy(cs, CategoryName) else cs
  }

  // ---- what the merge keeps ----

  /** The names of some categories. */
  function Names(cats: seq<Category>): set<string>
  {
    set c | c in cats :: c.name
  }

  /** The names of some announced categories. */
  function NewNames(news: seq<AvailableCategory>): set<string>
  {
    set c | c in news :: c.name
  }

  /** No two categories share a name. */
  predicate UniqueNames(cats: seq<Category>)
  {
    Distinct(cats, CategoryName)
  }

  /** No two events of a category share an id. */
  predicate UniqueIds(events: seq<EventEntry>)
  {
    Distinct(events, EventId)
  }

  /** The ids of some events. */
  function Ids(events: seq<EventEntry>): set<string>
  {
    set e | e in events :: e.id
  }

  /** The ids of some announced events. */
  function NewIds(events: seq<AvailableEvent>): set<string>
  {
    set e | e in events :: e.id
  }

  /** The ids of the events listed under `name`. */
  function CatIds(cats: seq<Category>, name: string): set<string>
  {
    set c, e | c in cats && c.name == name && e in c.events :: e.id
  }

  /** The ids of the events announced under `name`. */
  function AnnouncedIds(news: seq<AvailableCategory>, name: string): set<string>
  {
    set c, e | c in news && c.name == name && e in c.events :: e.id
  }

  lemma HasIdIds(events: seq<EventEntry>, id: string)
    ensures HasId(events, id) <==> id in Ids(events)
  {
    if id in Ids(events) {
      var e :| e in events && e.id == id;
      var k :| 0 <= k < |events| && events[k] == e;
    }
  }

  /** The inner loop only appends, and says so exactly when it did. */
  lemma {:induction false} AddEventsExtends(events: seq<EventEntry>, news: seq<AvailableEvent>)
    ensures var (es, added) := AddEvents(events, news);
      |events| <= |es| && es[..|events|] == events && (added <==> |events| < |es|)
  {
    if news != [] {
      var init := news[..|news| - 1];
      AddEventsExtends(events, init);
      var es := AddEvents(events, init).0;
      assert (es + [EventEntry(news[|news| - 1].name, news[|news| - 1].id)])[..|events|] == es[..|events|];
    }
  }

  /** After the inner loop the category has its old ids and the announced ones. */
  lemma {:induction false} AddEventsIds(events: seq<EventEntry>, news: seq<AvailableEvent>)
    ensures Ids(AddEvents(events, news).0) == Ids(events) + NewIds(news)
  {
    if news != [] {
      var init, e := news[..|news| - 1], news[|news| - 1];
      AddEventsIds(events, init);
      var es := AddEvents(events, init).0;
      assert NewIds(news) == NewIds(init) + {e.id} by {
        assert news == init + [e];
      }
      HasIdIds(es, e.id);
      assert Ids(es + [EventEntry(e.name, e.id)]) == Ids(es) + {e.id};
    }
  }

  /** The inner loop never lists an id twice in a category that did not. */
  lemma {:induction false} AddEventsUnique(events: seq<EventEntry>, news: seq<AvailableEvent>)
    requires UniqueIds(events)
    ensures UniqueIds(AddEvents(events, news).0)
  {
    if news != [] {
      var init, e := news[..|news| - 1], news[|news| - 1];
      AddEventsUnique(events, init);
      var es := AddEvents(events, init).0;
      if !HasId(es, e.id) {
        var es' := es + [EventEntry(e.name, e.id)];
        forall i, j | 0 <= i < j < |es'| ensures es'[i].id != es'[j].id {
          if j == |es| {
            assert es'[i] == es[i];
          } else {
            assert es'[i] == es[i] && es'[j] == es[j];
          }
        }
      }
    }
  }

  /** Announcing only ids a category already has leaves it as it is. */
  lemma {:induction false} AddEventsNothingNew(events: seq<EventEntry>, news: seq<AvailableEvent>)
    requires NewIds(news) <= Ids(events)
    ensures AddEvents(events, news) == (events, false)
  {
    if news != [] {
      var init, e := news[..|news| - 1], news[|news| - 1];
      assert news == init + [e];
      assert NewIds(init) <= NewIds(news);
      AddEventsNothingNew(events, init);
      HasIdIds(events, e.id);
    }
  }

  lemma CatIdsAppend(cats: seq<Category>, c: Category, name: string)
    ensures CatIds(cats + [c], name) == CatIds(cats, name) + (if c.name == name then Ids(c.events) else {})
  {
  }

  /** With unique names, the ids under a category's name are its own. */
  lemma CatIdsAt(cats: seq<Category>, k: nat, name: string)
    requires UniqueNames(cats) && k < |cats|
    ensures CatIds(cats, name) == if cats[k].name == name then Ids(cats[k].events) else CatIds(cats, name)
  {
    if cats[k].name == name {
      forall x | x in CatIds(cats, name) ensures x in Ids(cats[k].events) {
        var c, e :| c in cats && c.name == name && e in c.events && e.id == x;
        var j :| 0 <= j < |cats| && cats[j] == c;
        assert j == k;
      }
    }
  }

  lemma CatIdsUnknown(cats: seq<Category>, name: string)
    requires name !in Names(cats)
    ensures CatIds(cats, name) == {}
  {
  }

  /** Replacing one category by another of the same name changes only the ids under that name. */
  lemma CatIdsUpdate(cats: seq<Category>, k: nat, c: Category, name: string)
    requires UniqueNames(cats) && k < |cats| && c.name == cats[k].name
    ensures UniqueNames(cats[k := c])
    ensures CatIds(cats[k := c], name) == if name == c.name then Ids(c.events) else CatIds(cats, name)
  {
    var cs := cats[k := c];
    CatIdsAt(cs, k, name);
    if name != c.name {
      forall x | x in CatIds(cs, name) ensures x in CatIds(cats, name) {
        var d, e :| d in cs && d.name == name && e in d.events && e.id == x;
        var j :| 0 <= j < |cs| && cs[j] == d;
        assert cats[j] == d;
      }
      forall x | x in CatIds(cats, name) ensures x in CatIds(cs, name) {
        var d, e :| d in cats && d.name == name && e in d.events && e.id == x;
        var j :| 0 <= j < |cats| && cats[j] == d;
        assert cs[j] == d;
      }
    }
  }

  lemma NamesUpdate(cats: seq<Category>, k: nat, c: Category)
    requires k < |cats| && c.name == cats[k].name
    ensures Names(cats[k := c]) == Names(cats)
  {
    var cs := cats[k := c];
    forall n | n in Names(cats) ensures n in Names(cs) {
      var d :| d in cats && d.name == n;
      var j :| 0 <= j < |cats| && cats[j] == d;
      assert cs[j].name == n;
    }
    forall n | n in Names(cs) ensures n in Names(cats) {
      var d :| d in cs && d.name == n;
      var j :| 0 <= j < |cs| && cs[j] == d;
      assert cats[j].name == n;
    }
  }

  /** Every category lists each id at most once. */
  predicate AllUnique(cats: seq<Category>)
  {
    forall c :: c in cats ==> UniqueIds(c.events)
  }

  lemma ProjectIds(events: seq<AvailableEvent>)
    ensures Ids(Project(events)) == NewIds(events)
  {
    var p := Project(events);
    forall x | x in NewIds(events) ensures x in Ids(p) {
      var e :| e in events && e.id == x;
      var k :| 0 <= k < |events| && events[k] == e;
      assert p[k] in p;
    }
  }

  lemma SortedIds(events: seq<EventEntry>)
    ensures Ids(SortBy(events, EventName)) == Ids(events)
  {
    forall e ensures e in SortBy(events, EventName) <==> e in events {
      SortByMembers(events, EventName, e);
    }
  }

  lemma AnnouncedAppend(news: seq<AvailableCategory>, c: AvailableCategory, name: string)
    ensures AnnouncedIds(news + [c], name) == AnnouncedIds(news, name) + (if c.name == name then NewIds(c.events) else {})
    ensures NewNames(news + [c]) == NewNames(news) + {c.name}
  {
  }

  /** One announced category: appended exactly when its name is new; names stay unique and otherwise keep their order. */
  lemma MergeCategoryNames(cats: seq<Category>, nc: AvailableCategory)
    requires UniqueNames(cats)
    ensures var (cs, added) := MergeCategory(cats, nc);
      && UniqueNames(cs)
      && (added <==> nc.name !in Names(cats))
      && Names(cs) == Names(cats) + {nc.name}
      && (added ==> cs == cats + [Category(nc.name, Project(nc.events))])
      && (!added ==> |cs| == |cats| && forall i :: 0 <= i < |cs| ==> cs[i].name == cats[i].name)
  {
    match FindCategory(cats, nc.name)
    case None =>
      var cs := cats + [Category(nc.name, Project(nc.events))];
      assert nc.name !in Names(cats);
      forall i, j | 0 <= i < j < |cs| ensures CategoryName(cs[i]) != CategoryName(cs[j]) {
        if j == |cats| {
          assert cs[i] == cats[i];
        } else {
          assert cs[i] == cats[i] && cs[j] == cats[j];
        }
      }
    case Some(k) =>
      var (es, added) := AddEvents(cats[k].events, nc.events);
      var c := Category(cats[k].name, if added then SortBy(es, EventName) else es);
      NamesUpdate(cats, k, c);
      assert cats[k] in cats;
      var cs := cats[k := c];
      assert forall i :: 0 <= i < |cs| ==> cs[i].name == cats[i].name;
  }

  /** One announced category adds its ids under its name and nothing elsewhere. */
  lemma MergeCategoryIds(cats: seq<Category>, nc: AvailableCategory, name: string)
    requires UniqueNames(cats)
    ensures CatIds(MergeCategory(cats, nc).0, name) == CatIds(cats, name) + (if name == nc.name then NewIds(nc.events) else {})
  {
    match FindCategory(cats, nc.name)
    case None =>
      CatIdsAppend(cats, Category(nc.name, Project(nc.events)), name);
      ProjectIds(nc.events);
    case Some(k) =>
      var (es, added) := AddEvents(cats[k].events, nc.events);
      var c := Category(cats[k].name, if added then SortBy(es, EventName) else es);
      CatIdsUpdate(cats, k, c, name);
      if name == nc.name {
        CatIdsAt(cats, k, name);
        AddEventsIds(cats[k].events, nc.events);
        SortedIds(es);
      }
  }

  /** Merging into a known category never duplicates an id; a new category is as unique as announced. */
  lemma MergeCategoryUnique(cats: seq<Category>, nc: AvailableCategory)
    requires UniqueNames(cats) && AllUnique(cats) && UniqueIds(Project(nc.events))
    ensures AllUnique(MergeCategory(cats, nc).0)
  {
    match FindCategory(cats, nc.name)
    case None =>
    case Some(k) =>
      var (es, added) := AddEvents(cats[k].events, nc.events);
      assert cats[k] in cats;
      AddEventsUnique(cats[k].events, nc.events);
      if added {
        SortByDistinct(es, EventName, EventId);
      }
      var cs := MergeCategory(cats, nc).0;
      forall d | d in cs ensures UniqueIds(d.events) {
        var i :| 0 <= i < |cs| && cs[i] == d;
        if i != k {
          assert cats[i] in cats;
        }
      }
  }

  /**
   * A known category changes only when it gains an id, and then its events
   * are sorted by name.
   */
  lemma MergeCategoryKnown(cats: seq<Category>, nc: AvailableCategory, k: nat)
    requires UniqueNames(cats) && k < |cats| && cats[k].name == nc.name
    ensures NewIds(nc.events) <= Ids(cats[k].events) ==> MergeCategory(cats, nc) == (cats, false)
    ensures !(NewIds(nc.events) <= Ids(cats[k].events)) ==>
      var cs := MergeCategory(cats, nc).0;
      |cs| == |cats| && SortedBy(cs[k].events, EventName)
  {
    assert forall j :: 0 <= j < k ==> CategoryName(cats[j]) != CategoryName(cats[k]);
    assert FindCategory(cats, nc.name) == Some(k);
    var (es, added) := AddEvents(cats[k].events, nc.events);
    if NewIds(nc.events) <= Ids(cats[k].events) {
      AddEventsNothingNew(cats[k].events, nc.events);
      assert cats[k := cats[k]] == cats;
    } else {
      AddEventsIds(cats[k].events, nc.events);
      AddEventsExtends(cats[k].events, nc.events);
      SortBySorted(es, EventName);
    }
  }

  lemma MergeAllStep(cats: seq<Category>, news: seq<AvailableCategory>)
    requires news != []
    ensures var prev := MergeAll(cats, news[..|news| - 1]);
      var step := MergeCategory(prev.0, news[|news| - 1]);
      MergeAll(cats, news) == (step.0, prev.1 || step.1)
  {
  }

  lemma AnnouncedStep(news: seq<AvailableCategory>, name: string)
    requires news != []
    ensures var init, nc := news[..|news| - 1], news[|news| - 1];
      && NewNames(news) == NewNames(init) + {nc.name}
      && AnnouncedIds(news, name) == AnnouncedIds(init, name) + (if nc.name == name then NewIds(nc.events) else {})
  {
    var init, nc := news[..|news| - 1], news[|news| - 1];
    AnnouncedAppend(init, nc, name);
    assert news == init + [nc];
  }

  /** The outer loop keeps names unique and adds the announced names. */
  lemma {:induction false} MergeAllNames(cats: seq<Category>, news: seq<AvailableCategory>)
    requires UniqueNames(cats)
    ensures UniqueNames(MergeAll(cats, news).0) && Names(MergeAll(cats, news).0) == Names(cats) + NewNames(news)
  {
    if news != [] {
      var init, nc := news[..|news| - 1], news[|news| - 1];
      var prev := MergeAll(cats, init).0;
      assert UniqueNames(prev) && Names(prev) == Names(cats) + NewNames(init) by {
        MergeAllNames(cats, init);
      }
      assert MergeAll(cats, news).0 == MergeCategory(prev, nc).0 by {
        MergeAllStep(cats, news);
      }
      var next := MergeCategory(prev, nc).0;
      assert UniqueNames(next) && Names(next) == Names(prev) + {nc.name} by {
        MergeCategoryNames(prev, nc);
      }
      AnnouncedStep(news, nc.name);
    }
  }

  /**
   * The outer loop appends a category exactly when some announced name is
   * new, and otherwise keeps the categories in their order.
   */
  lemma {:induction false} MergeAllAdded(cats: seq<Category>, news: seq<AvailableCategory>)
    requires UniqueNames(cats)
    ensures var (cs, added) := MergeAll(cats, news);
      && (added <==> !(NewNames(news) <= Names(cats)))
      && (!added ==> |cs| == |cats| && forall i :: 0 <= i < |cs| ==> cs[i].name == cats[i].name)
  {
    if news != [] {
      var init, nc := news[..|news| - 1], news[|news| - 1];
      MergeAllAdded(cats, init);
      MergeAllNames(cats, init);
      MergeAllStep(cats, news);
      var (cs, added) := MergeAll(cats, init);
      MergeCategoryNames(cs, nc);
      AnnouncedStep(news, nc.name);
    }
  }

  /** After the outer loop each name lists its old ids and every id announced under it. */
  lemma {:induction false} MergeAllIds(cats: seq<Category>, news: seq<AvailableCategory>, name: string)
    requires UniqueNames(cats)
    ensures CatIds(MergeAll(cats, news).0, name) == CatIds(cats, name) + AnnouncedIds(news, name)
  {
    if news != [] {
      var init, nc := news[..|news| - 1], news[|news| - 1];
      var prev := MergeAll(cats, init).0;
      assert CatIds(prev, name) == CatIds(cats, name) + AnnouncedIds(init, name) by {
        MergeAllIds(cats, init, name);
      }
      assert UniqueNames(prev) by {
        MergeAllNames(cats, init);
      }
      assert MergeAll(cats, news).0 == MergeCategory(prev, nc).0 by {
        MergeAllStep(cats, news);
      }
      assert CatIds(MergeCategory(prev, nc).0, name) == CatIds(prev, name) + (if name == nc.name then NewIds(nc.events) else {}) by {
        MergeCategoryIds(prev, nc, name);
      }
      AnnouncedStep(news, name);
    }
  }

  /** Every announced category lists each id at most once. */
  predicate AnnouncedUnique(news: seq<AvailableCategory>)
  {
    forall c :: c in news ==> UniqueIds(Project(c.events))
  }

  lemma {:induction false} MergeAllUnique(cats: seq<Category>, news: seq<AvailableCategory>)
    requires UniqueNames(cats) && AllUnique(cats) && AnnouncedUnique(news)
    ensures AllUnique(MergeAll(cats, news).0)
  {
    if news != [] {
      var init, nc := news[..|news| - 1], news[|news| - 1];
      assert forall c :: c in init ==> c in news;
      MergeAllUnique(cats, init);
      MergeAllNames(cats, init);
      MergeCategoryUnique(MergeAll(cats, init).0, nc);
    }
  }

  /** Announcing only known names with known ids changes nothing. */
  lemma {:induction false} MergeAllNothingNew(cats: seq<Category>, news: seq<AvailableCategory>)
    requires UniqueNames(cats)
    requires forall c :: c in news ==> c.name in Names(cats) && NewIds(c.events) <= CatIds(cats, c.name)
    ensures MergeAll(cats, news) == (cats, false)
  {
    if news != [] {
      var init, nc := news[..|news| - 1], news[|news| - 1];
      assert forall c :: c in init ==> c in news;
      MergeAllNothingNew(cats, init);
      var k :| 0 <= k < |cats| && cats[k].name == nc.name;
      CatIdsAt(cats, k, nc.name);
      MergeCategoryKnown(cats, nc, k);
    }
  }

  /**
   * The published list: names stay unique and are the old and announced
   * names, and each name lists its old ids and every id announced under it.
   */
  lemma MergedKeeps(cats: seq<Category>, news: seq<AvailableCategory>, name: string)
    requires UniqueNames(cats)
    ensures UniqueNames(Merged(cats, news))
    ensures Names(Merged(cats, news)) == Names(cats) + NewNames(news)
    ensures CatIds(Merged(cats, news), name) == CatIds(cats, name) + AnnouncedIds(news, name)
  {
    var (cs, added) := MergeAll(cats, news);
    MergeAllNames(cats, news);
    MergeAllIds(cats, news, name);
    if added {
      SortByDistinct(cs, CategoryName, CategoryName);
      forall c ensures c in SortBy(cs, CategoryName) <==> c in cs {
        SortByMembers(cs, CategoryName, c);
      }
    }
  }

  /**
   * The categories are re-sorted by name exactly when one was added:
   * otherwise they keep their order.
   */
  lemma MergedOrder(cats: seq<Category>, news: seq<AvailableCategory>)
    requires UniqueNames(cats)
    ensures !(NewNames(news) <= Names(cats)) ==> SortedBy(Merged(cats, news), CategoryName)
    ensures NewNames(news) <= Names(cats) ==>
      var r := Merged(cats, news);
      |r| == |cats| && forall i :: 0 <= i < |r| ==> r[i].name == cats[i].name
  {
    MergeAllAdded(cats, news);
    SortBySorted(MergeAll(cats, news).0, CategoryName);
  }

  /** A category announced twice under one name still lists each id once, given each announcement does. */
  lemma MergedUnique(cats: seq<Category>, news: seq<AvailableCategory>)
    requires UniqueNames(cats) && AllUnique(cats) && AnnouncedUnique(news)
    ensures AllUnique(Merged(cats, news))
  {
    var (cs, added) := MergeAll(cats, news);
    MergeAllUnique(cats, news);
    if added {
      forall c | c in SortBy(cs, CategoryName) ensures UniqueIds(c.events) {
        SortByMembers(cs, CategoryName, c);
      }
    }
  }

  /** Announcing the same categories again changes nothing. */
  lemma MergedIdempotent(cats: seq<Category>, news: seq<AvailableCategory>)
    requires UniqueNames(cats)
    ensures Merged(Merged(cats, news), news) == Merged(cats, news)
  {
    var r := Merged(cats, news);
    forall c | c in news ensures c.name in Names(r) && NewIds(c.events) <= CatIds(r, c.name) {
      MergedKeeps(cats, news, c.name);
      assert NewIds(c.events) <= AnnouncedIds(news, c.name);
    }
    MergedKeeps(cats, news, "");
    MergeAllNothingNew(r, news);
  }

  lemma MergeAllPrefix(cats: seq<Category>, news: seq<AvailableCategory>, i: nat)
    requires i < |news|
    ensures var prev := MergeAll(cats, news[..i]);
      var step := MergeCategory(prev.0, news[i]);
      MergeAll(cats, news[..i + 1]) == (step.0, prev.1 || step.1)
  {
    assert news[..i + 1][..i] == news[..i];
    MergeAllStep(cats, news[..i + 1]);
  }

  lemma AddEventsPrefix(events: seq<EventEntry>, news: seq<AvailableEvent>, j: nat)
    requires j < |news|
    ensures var (es, added) := AddEvents(events, news[..j]);
      AddEvents(events, news[..j + 1]) ==
        if HasId(es, news[j].id) then (es, added) else (es + [EventEntry(news[j].name, news[j].id)], true)
  {
    assert news[..j + 1][..j] == news[..j];
  }

  /** The inner loop of the handler over one announced category's events. */
  method AddNewEvents(events: seq<EventEntry>, news: seq<AvailableEvent>) returns (es: seq<EventEntry>, added: bool)
    ensures (es, added) == AddEvents(events, news)
  {
    es, added := events, false;
    for j := 0 to |news|
      invariant (es, added) == AddEvents(events, news[..j])
    {
      AddEventsPrefix(events, news, j);
      var e := news[j];
      if !HasId(es, e.id) {
        es := es + [EventEntry(e.name, e.id)];
        added := true;
      }
    }
    assert news[..|news|] == news;
  }

  class EventBreakpointsManager {
    /** `availableEvents`: the merged categories */
    var available: seq<Category>
    /** every list sent to the editor as an `availableEvents` event, oldest first */
    var published: seq<seq<Category>>

    ghost predicate Valid()
      reads this
    {
      UniqueNames(available)
    }

    constructor ()
      ensures Valid() && available == [] && published == []
    {
      available, published := [], [];
    }

    /**
     * The handler run when a thread registers, with `announced` the answer
     * to its `getAvailableEventBreakpoints`: merges the announced categories
     * and publishes the list.
     */
    method OnRegistered(announced: seq<AvailableCategory>)
      requires Valid()
      modifies this
      ensures Valid() && available == Merged(old(available), announced)
      ensures published == old(published) + [available]
    {
      ghost var before := available;
      var categoryAdded := false;
      for i := 0 to |announced|
        invariant published == old(published)
        invariant (available, categoryAdded) == MergeAll(before, announced[..i])
      {
        MergeAllPrefix(before, announced, i);
        var added := MergeOne(announced[i]);
        categoryAdded := categoryAdded || added;
      }
      assert announced[..|announced|] == announced;
      if categoryAdded {
        available := SortBy(available, CategoryName);
      }
      assert UniqueNames(available) by { MergedKeeps(before, announced, ""); }
      published := published + [available];
    }

    /** One announced category: pushed when its name is unknown, else its new events are added and, if any, sorted. */
    method MergeOne(nc: AvailableCategory) returns (added: bool)
      modifies this`available
      ensures (available, added) == MergeCategory(old(available), nc)
    {
      var found := FindCategory(available, nc.name);
      if found.None? {
        available := available + [Category(nc.name, Project(nc.events))];
        return true;
      }
      var k := found.value;
      var events, eventAdded := AddNewEvents(available[k].events, nc.events);
      if eventAdded {
        events := SortBy(events, EventName);
      }
      available := available[k := Category(available[k].name, events)];
      added := false;
    }
  }
}
