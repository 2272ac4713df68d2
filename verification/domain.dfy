/**
 The guide's records: a channel (one row of the grid) and a scheduled event
 (one cell of a row). Both are immutable values; the only mutable bit of an
 event in the Java library, its `selected` highlight flag, is an ordinary field
 here that operations return updated copies of.
 */
module Domain {

  /** A channel row: identifier, display name and the URL of its logo. */
  datatype Channel = Channel(channelId: string, name: string, imageUrl: string)

  /** A scheduled event: epoch-millisecond start and end, a title, and the UI highlight flag. */
  datatype Event = Event(start: int, end: int, title: string, selected: bool)

  /** The event constructor: the accessors give back exactly its arguments, and a fresh event is not highlighted. */
  function NewEvent(start: int, end: int, title: string): (e: Event)
    ensures e.start == start && e.end == end && e.title == title
    ensures !e.selected
  {
    Event(start, end, title, false)
  }

  /**
   An event is current while the clock lies in its closed interval
   [start, end]; only a well-formed event is ever current, and a well-formed
   event is current at its start.
   */
  function IsCurrent(e: Event, now: int): (r: bool)
    ensures r ==> e.start <= e.end
    ensures now == e.start ==> (r <==> e.start <= e.end)
  {
    now >= e.start && now <= e.end
  }

  /** Both ends of a well-formed event are current instants, and the instants just outside are not. */
  lemma CurrentInclusiveAtBothEnds(e: Event)
    requires e.start <= e.end
    ensures IsCurrent(e, e.start) && IsCurrent(e, e.end)
    ensures !IsCurrent(e, e.start - 1) && !IsCurrent(e, e.end + 1)
  {
  }

  /** An event whose end precedes its start is never current. */
  lemma InvertedNeverCurrent(e: Event, now: int)
    requires e.start > e.end
    ensures !IsCurrent(e, now)
  {
  }

  /** Whether an event is current does not depend on its highlight flag. */
  lemma CurrentIgnoresSelection(e: Event, now: int, s: bool)
    ensures IsCurrent(e.(selected := s), now) <==> IsCurrent(e, now)
  {
  }

  /**
   The data-source contract every channel's event list is assumed to meet:
   each event is well formed and ends no later than the next one starts.
   The guide never sorts or checks this itself.
   */
  predicate SortedDisjoint(es: seq<Event>) {
    && (forall i :: 0 <= i < |es| ==> es[i].start <= es[i].end)
    && (forall i :: 0 <= i < |es| - 1 ==> es[i].end <= es[i + 1].start)
  }

  /** The neighbour-wise ordering extends to every pair of events in the list. */
  lemma {:induction false} SortedPairwise(es: seq<Event>, i: int, j: int)
    requires SortedDisjoint(es)
    requires 0 <= i < j < |es|
    ensures es[i].end <= es[j].start
    decreases j - i
  {
    if j > i + 1 {
      SortedPairwise(es, i, j - 1);
      assert es[j - 1].start <= es[j - 1].end;
      assert es[j - 1].end <= es[j].start;
    }
  }

  /** Back-to-back events are both current at the instant one ends and the next begins. */
  lemma BackToBackBothCurrent(es: seq<Event>, i: int)
    requires SortedDisjoint(es)
    requires 0 <= i < |es| - 1 && es[i].end == es[i + 1].start
    ensures IsCurrent(es[i], es[i].end) && IsCurrent(es[i + 1], es[i].end)
  {
  }

  /**
   In a sorted, non-overlapping list two different events can be current at
   the same instant only when that instant is the boundary between them.
   */
  lemma TwoCurrentOnlyAtBoundary(es: seq<Event>, i: int, j: int, now: int)
    requires SortedDisjoint(es)
    requires 0 <= i < j < |es|
    requires IsCurrent(es[i], now) && IsCurrent(es[j], now)
    ensures now == es[i].end == es[j].start
  {
    SortedPairwise(es, i, j);
  }
}
