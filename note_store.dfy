/**
 * The note list that `App` keeps (nlw-expert-notes/src/app.tsx): an ordered
 * list of notes, newest first, mirrored into one storage slot after every
 * change, and narrowed by the search box when rendered.
 *
 * The list computations (the spread that prepends, the two `filter` calls)
 * are functions with lemmas; the component state (`notes`, the search text
 * and the storage slot) is the class `Store`.
 */
module NoteStore {
  import opened Wrappers
  import opened Strings
  import opened Feedback

  /** One note; `date` is the creation time, in milliseconds since the epoch. */
  datatype Note = Note(id: string, date: int, content: string)

  predicate HasId(notes: seq<Note>, id: string) {
    exists i :: 0 <= i < |notes| && notes[i].id == id
  }

  predicate UniqueIds(notes: seq<Note>) {
    forall i, j :: 0 <= i < j < |notes| ==> notes[i].id != notes[j].id
  }

  /* ---------------------------------------------------------------------- */
  /* Array.prototype.filter                                                  */
  /* ---------------------------------------------------------------------- */

  /**
   * `s.filter(keep)`. Defined by peeling off the last element, which yields
   * the same list as the front-to-back scan JavaScript performs.
   */
  function Filter(s: seq<Note>, keep: Note -> bool): (r: seq<Note>)
    ensures |r| <= |s|
    ensures forall n :: n in r <==> n in s && keep(n)
    decreases |s|
  {
    if s == [] then []
    else
      InitLast(s);
      Filter(s[..|s| - 1], keep) + (if keep(s[|s| - 1]) then [s[|s| - 1]] else [])
  }

  lemma InitLast(s: seq<Note>)
    requires s != []
    ensures s[..|s| - 1] + [s[|s| - 1]] == s
  {
  }

  lemma AppendAssoc(x: seq<Note>, y: seq<Note>, z: seq<Note>)
    ensures (x + y) + z == x + (y + z)
  {
  }

  lemma AppendEmpty(x: seq<Note>)
    ensures x + [] == x && [] + x == x
  {
  }

  /** The positions of `s` at which `keep` holds, ascending. */
  ghost function KeptIndices(s: seq<Note>, keep: Note -> bool): seq<nat>
    decreases |s|
  {
    if s == [] then []
    else KeptIndices(s[..|s| - 1], keep) + (if keep(s[|s| - 1]) then [|s| - 1] else [])
  }

  /** `r` is the list of elements of `s` at the strictly increasing positions `ix`. */
  ghost predicate PicksAt(r: seq<Note>, s: seq<Note>, ix: seq<nat>) {
    && |ix| == |r|
    && (forall k :: 0 <= k < |ix| ==> ix[k] < |s| && r[k] == s[ix[k]])
    && (forall k, l :: 0 <= k < l < |ix| ==> ix[k] < ix[l])
  }

  /**
   * `r` consists of exactly the elements of `s` at which `keep` holds, each
   * occurrence once, in their original relative order.
   */
  ghost predicate SelectsInOrder(r: seq<Note>, s: seq<Note>, keep: Note -> bool) {
    exists ix :: PicksAt(r, s, ix) && forall i :: 0 <= i < |s| ==> (i in ix <==> keep(s[i]))
  }

  /** Appending one element to `s`, and to `r` exactly when it is kept, extends the picking. */
  lemma PicksAtExtend(r: seq<Note>, s: seq<Note>, ix: seq<nat>, x: Note, kept: bool,
                      r': seq<Note>, s': seq<Note>, ix': seq<nat>)
    requires PicksAt(r, s, ix)
    requires r' == r + (if kept then [x] else [])
    requires s' == s + [x]
    requires ix' == ix + (if kept then [|s|] else [])
    ensures PicksAt(r', s', ix')
  {
    assert forall k :: 0 <= k < |ix| ==> s'[ix[k]] == s[ix[k]];
  }

  lemma KeptIndicesSnocEq(s: seq<Note>, x: Note, keep: Note -> bool)
    ensures KeptIndices(s + [x], keep) == KeptIndices(s, keep) + (if keep(x) then [|s|] else [])
  {
    var sx := s + [x];
    assert sx[..|sx| - 1] == s && sx[|sx| - 1] == x;
  }

  /** Appending one element keeps the earlier positions' membership and adds the new one if kept. */
  lemma KeptMembersSnoc(s: seq<Note>, x: Note, keep: Note -> bool, ix: seq<nat>, ix': seq<nat>)
    requires forall i :: 0 <= i < |s| ==> (i in ix <==> keep(s[i]))
    requires forall k :: 0 <= k < |ix| ==> ix[k] < |s|
    requires ix' == ix + (if keep(x) then [|s|] else [])
    ensures forall i :: 0 <= i < |s + [x]| ==> (i in ix' <==> keep((s + [x])[i]))
  {
    forall i | 0 <= i < |s + [x]|
      ensures i in ix' <==> keep((s + [x])[i])
    {
      if i < |s| {
        assert (s + [x])[i] == s[i];
      } else {
        assert i !in ix;
      }
    }
  }

  /** The inductive step of KeptIndicesCorrect: one more element at the end. */
  lemma KeptIndicesSnoc(init: seq<Note>, x: Note, keep: Note -> bool)
    requires PicksAt(Filter(init, keep), init, KeptIndices(init, keep))
    requires forall i :: 0 <= i < |init| ==> (i in KeptIndices(init, keep) <==> keep(init[i]))
    ensures PicksAt(Filter(init + [x], keep), init + [x], KeptIndices(init + [x], keep))
    ensures forall i :: 0 <= i < |init + [x]| ==> (i in KeptIndices(init + [x], keep) <==> keep((init + [x])[i]))
  {
    var r0, ix0, kept := Filter(init, keep), KeptIndices(init, keep), keep(x);
    FilterSnoc(init, x, keep);
    KeptIndicesSnocEq(init, x, keep);
    PicksAtExtend(r0, init, ix0, x, kept, Filter(init + [x], keep), init + [x], KeptIndices(init + [x], keep));
    KeptMembersSnoc(init, x, keep, ix0, KeptIndices(init + [x], keep));
  }

  lemma {:induction false} KeptIndicesCorrect(s: seq<Note>, keep: Note -> bool)
    ensures PicksAt(Filter(s, keep), s, KeptIndices(s, keep))
    ensures forall i :: 0 <= i < |s| ==> (i in KeptIndices(s, keep) <==> keep(s[i]))
    decreases |s|
  {
    if s != [] {
      KeptIndicesCorrect(s[..|s| - 1], keep);
      KeptIndicesSnoc(s[..|s| - 1], s[|s| - 1], keep);
      InitLast(s);
    }
  }

  /** Filtering keeps exactly the matching elements, in their original order. */
  lemma FilterKeepsOrder(s: seq<Note>, keep: Note -> bool)
    ensures SelectsInOrder(Filter(s, keep), s, keep)
  {
    KeptIndicesCorrect(s, keep);
  }

  lemma FilterSnoc(s: seq<Note>, x: Note, keep: Note -> bool)
    ensures Filter(s + [x], keep) == Filter(s, keep) + (if keep(x) then [x] else [])
    ensures !keep(x) ==> Filter(s + [x], keep) == Filter(s, keep)
  {
    var sx := s + [x];
    assert sx[..|sx| - 1] == s && sx[|sx| - 1] == x;
    AppendEmpty(Filter(s, keep));
  }

  lemma {:induction false} FilterAppend(a: seq<Note>, b: seq<Note>, keep: Note -> bool)
    ensures Filter(a + b, keep) == Filter(a, keep) + Filter(b, keep)
    decreases |b|
  {
    if b == [] {
      AppendEmpty(a);
      AppendEmpty(Filter(a, keep));
    } else {
      var init, last := b[..|b| - 1], b[|b| - 1];
      var tail := if keep(last) then [last] else [];
      InitLast(b);
      AppendAssoc(a, init, [last]);
      FilterAppend(a, init, keep);
      FilterSnoc(a + init, last, keep);
      FilterSnoc(init, last, keep);
      AppendAssoc(Filter(a, keep), Filter(init, keep), tail);
      calc {
        Filter(a + b, keep);
        Filter((a + init) + [last], keep);
        Filter(a + init, keep) + tail;
        (Filter(a, keep) + Filter(init, keep)) + tail;
        Filter(a, keep) + (Filter(init, keep) + tail);
        Filter(a, keep) + Filter(init + [last], keep);
        Filter(a, keep) + Filter(b, keep);
      }
    }
  }

  lemma {:induction false} FilterAll(s: seq<Note>, keep: Note -> bool)
    requires forall i :: 0 <= i < |s| ==> keep(s[i])
    ensures Filter(s, keep) == s
    decreases |s|
  {
    if s != [] {
      var init := s[..|s| - 1];
      assert forall i :: 0 <= i < |init| ==> init[i] == s[i];
      FilterAll(init, keep);
      InitLast(s);
    }
  }

  lemma {:induction false} FilterNone(s: seq<Note>, keep: Note -> bool)
    requires forall i :: 0 <= i < |s| ==> !keep(s[i])
    ensures Filter(s, keep) == []
    decreases |s|
  {
    if s != [] {
      var init := s[..|s| - 1];
      assert forall i :: 0 <= i < |init| ==> init[i] == s[i];
      FilterNone(init, keep);
    }
  }

  lemma FilterPreservesUniqueIds(s: seq<Note>, keep: Note -> bool)
    requires UniqueIds(s)
    ensures UniqueIds(Filter(s, keep))
  {
    KeptIndicesCorrect(s, keep);
  }

  /* ---------------------------------------------------------------------- */
  /* Delete: notes.filter(note => note.id !== id)                            */
  /* ---------------------------------------------------------------------- */

  function IdIsNot(id: string): Note -> bool {
    (n: Note) => n.id != id
  }

  /** The list `onNoteDeleted(id)` computes. */
  function Without(notes: seq<Note>, id: string): (r: seq<Note>)
    ensures forall n :: n in r <==> n in notes && n.id != id
    ensures !HasId(r, id)
  {
    Filter(notes, IdIsNot(id))
  }

  /** Every note whose id differs stays, in its original relative order. */
  lemma DeleteKeepsOrder(notes: seq<Note>, id: string)
    ensures SelectsInOrder(Without(notes, id), notes, IdIsNot(id))
  {
    FilterKeepsOrder(notes, IdIsNot(id));
  }

  lemma DeleteAbsent(notes: seq<Note>, id: string)
    requires !HasId(notes, id)
    ensures Without(notes, id) == notes
  {
    FilterAll(notes, IdIsNot(id));
  }

  /** Filtering out one element and keeping those around it. */
  lemma FilterDropsOne(a: seq<Note>, x: Note, b: seq<Note>, keep: Note -> bool)
    requires forall k :: 0 <= k < |a| ==> keep(a[k])
    requires !keep(x)
    requires forall k :: 0 <= k < |b| ==> keep(b[k])
    ensures Filter(a + [x] + b, keep) == a + b
  {
    FilterAppend(a + [x], b, keep);
    FilterSnoc(a, x, keep);
    FilterAll(a, keep);
    FilterAll(b, keep);
    calc {
      Filter(a + [x] + b, keep);
      Filter(a + [x], keep) + Filter(b, keep);
      Filter(a, keep) + Filter(b, keep);
      a + b;
    }
  }

  /** With unique ids, deleting the id at position `i` removes that note and no other. */
  lemma DeletePresent(notes: seq<Note>, i: nat)
    requires UniqueIds(notes) && i < |notes|
    ensures Without(notes, notes[i].id) == notes[..i] + notes[i + 1..]
    ensures |Without(notes, notes[i].id)| == |notes| - 1
  {
    var keep := IdIsNot(notes[i].id);
    var a, x, b := notes[..i], notes[i], notes[i + 1..];
    assert notes == a + [x] + b;
    forall k | 0 <= k < |a|
      ensures keep(a[k])
    {
      assert a[k] == notes[k];
    }
    forall k | 0 <= k < |b|
      ensures keep(b[k])
    {
      assert b[k] == notes[i + 1 + k];
    }
    FilterDropsOne(a, x, b, keep);
  }

  lemma DeleteIdempotent(notes: seq<Note>, id: string)
    ensures Without(Without(notes, id), id) == Without(notes, id)
  {
    DeleteAbsent(Without(notes, id), id);
  }

  /** Deleting the id of a note just put in front of fresh ids gives back the old list. */
  lemma DeleteUndoesCreate(notes: seq<Note>, note: Note)
    requires !HasId(notes, note.id)
    ensures Without([note] + notes, note.id) == notes
  {
    FilterAppend([note], notes, IdIsNot(note.id));
    FilterNone([note], IdIsNot(note.id));
    DeleteAbsent(notes, note.id);
  }

  /* ---------------------------------------------------------------------- */
  /* Search: search !== '' ? notes.filter(...) : notes                     */
  /* ---------------------------------------------------------------------- */

  /** The search predicate: the lower-cased content includes the query as typed. */
  predicate Matches(note: Note, query: string): (found: bool)
    ensures query == "" ==> found
    ensures found ==> |query| <= |note.content|
  {
    Contains(Lower(note.content), query)
  }

  function MatchesQuery(query: string): Note -> bool {
    (n: Note) => Matches(n, query)
  }

  /** `filteredNotes` for the search text `query`. */
  function Search(notes: seq<Note>, query: string): (r: seq<Note>)
    ensures query == "" ==> r == notes
    ensures query != "" ==> forall n :: n in r <==> n in notes && Matches(n, query)
  {
    if query == "" then notes else Filter(notes, MatchesQuery(query))
  }

  lemma SearchKeepsOrder(notes: seq<Note>, query: string)
    requires query != ""
    ensures SelectsInOrder(Search(notes, query), notes, MatchesQuery(query))
  {
    FilterKeepsOrder(notes, MatchesQuery(query));
  }

  /** Only the content is lower-cased, so a query with an upper-case letter finds nothing. */
  lemma UppercaseQueryFindsNothing(notes: seq<Note>, query: string, j: nat)
    requires j < |query| && IsUpper(query[j])
    ensures Search(notes, query) == []
  {
    forall i | 0 <= i < |notes|
      ensures !MatchesQuery(query)(notes[i])
    {
      LoweredLacksUpper(notes[i].content, query, j);
    }
    FilterNone(notes, MatchesQuery(query));
  }

  /** A note "Buy Milk" is found by "milk" but not by "MILK". */
  lemma SearchIsCaseSensitiveOnTheQuery(note: Note)
    requires note.content == "Buy Milk"
    ensures Search([note], "milk") == [note]
    ensures Search([note], "MILK") == []
  {
    var low := Lower(note.content);
    assert low[4..8] == "milk";
    assert OccursAt(low, "milk", 4);
    assert Matches(note, "milk");
    FilterAll([note], MatchesQuery("milk"));
    UppercaseQueryFindsNothing([note], "MILK", 0);
  }

  /* ---------------------------------------------------------------------- */
  /* The component state                                                     */
  /* ---------------------------------------------------------------------- */

  /**
   * The state of `App`: the `notes` list, the `search` text and the
   * `notesCookies` storage slot, already parsed (`None` while nothing has
   * been written to it).
   */
  class Store {
    var notes: seq<Note>
    var search: string
    var stored: Option<seq<Note>>

    /** Ids are unique, and the slot holds the whole list once it has been written. */
    ghost predicate Valid()
      reads this
    {
      && UniqueIds(notes)
      && (stored == Some(notes) || (stored == None && notes == []))
    }

    /** The first render: the list comes from the slot when it holds one, else it is empty. */
    constructor (slot: Option<seq<Note>>)
      requires slot.Some? ==> UniqueIds(slot.value)
      ensures Valid()
      ensures notes == (if slot.Some? then slot.value else [])
      ensures stored == slot && search == ""
    {
      notes := if slot.Some? then slot.value else [];
      search := "";
      stored := slot;
    }

    /** What the page lists below the search box. */
    /**
     * What the page lists below the search box: computed from `notes` and
     * `search` on each render and never written back, so it changes nothing.
     */
    function FilteredNotes(): (shown: seq<Note>)
      reads this
      ensures search == "" ==> shown == notes
      ensures search != "" ==> SelectsInOrder(shown, notes, MatchesQuery(search))
      ensures UniqueIds(notes) ==> UniqueIds(shown)
    {
      if search == "" then notes
      else
        FilterKeepsOrder(notes, MatchesQuery(search));
        if UniqueIds(notes) then FilterPreservesUniqueIds(notes, MatchesQuery(search)); Search(notes, search)
        else Search(notes, search)
    }

    /**
     * `onNoteCreated(content)`; `id` and `date` stand for `crypto.randomUUID()`
     * and `new Date()`. Any content is accepted, the empty one included.
     */
    method Create(content: string, id: string, date: int)
      requires Valid() && !HasId(notes, id)
      modifies this
      ensures Valid()
      ensures notes == [Note(id, date, content)] + old(notes)
      ensures stored == Some(notes)
      ensures search == old(search)
    {
      notes := [Note(id, date, content)] + notes;
      stored := Some(notes);
    }

    /** `onNoteDeleted(id)`: drops every note with that id and reports success either way. */
    method Delete(id: string) returns (notice: Toast)
      requires Valid()
      modifies this
      ensures Valid()
      ensures notes == Without(old(notes), id)
      ensures stored == Some(notes)
      ensures search == old(search)
      ensures notice == NoteDeleted
    {
      FilterPreservesUniqueIds(notes, IdIsNot(id));
      notes := Without(notes, id);
      notice := NoteDeleted;
      stored := Some(notes);
    }

    /** `handleSearch`: only the search text changes. */
    method SetSearch(query: string)
      requires Valid()
      modifies this
      ensures Valid()
      ensures search == query
      ensures notes == old(notes) && stored == old(stored)
      ensures FilteredNotes() == Search(old(notes), query)
    {
      search := query;
    }
  }
}
