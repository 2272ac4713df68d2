/**
 The map-backed data adapter. It is built from a map from channel to event
 list and keeps the keys and the values as two parallel lists, so that row i
 of the guide shows channel i and event list i. The Java map is given here as
 its iteration order: a sequence of (channel, events) entries.

 The library and the demo application each ship a copy of this adapter; they
 are identical except that the library copy also clears selections.
 */
module EpgData {
  import opened Domain

  datatype Data = Data(channels: seq<Channel>, events: seq<seq<Event>>)

  /** One entry of the input map, in its iteration order. */
  type Entry = (Channel, seq<Event>)

  /** The adapter's invariant: one event list per channel. */
  predicate Aligned(d: Data) {
    |d.channels| == |d.events|
  }

  /** No event of any channel is highlighted. */
  predicate NoneSelected(d: Data) {
    forall c, p :: 0 <= c < |d.events| && 0 <= p < |d.events[c]| ==> !d.events[c][p].selected
  }

  /** The constructor: key set and value collection, copied in the map's one iteration order. */
  function FromMap(entries: seq<Entry>): (d: Data)
    ensures Aligned(d) && |d.channels| == |entries|
    ensures forall i :: 0 <= i < |entries| ==> d.channels[i] == entries[i].0 && d.events[i] == entries[i].1
  {
    Data(seq(|entries|, i requires 0 <= i < |entries| => entries[i].0),
         seq(|entries|, i requires 0 <= i < |entries| => entries[i].1))
  }

  /** The entries an aligned adapter holds, row by row: the inverse of the constructor. */
  function Entries(d: Data): (entries: seq<Entry>)
    requires Aligned(d)
    ensures |entries| == |d.channels|
  {
    seq(|d.channels|, i requires 0 <= i < |d.channels| => (d.channels[i], d.events[i]))
  }

  /** The constructor stores the entries exactly as given: nothing is sorted, dropped, merged or checked. */
  lemma StoredAsGiven(entries: seq<Entry>)
    ensures Entries(FromMap(entries)) == entries
  {
    var d := FromMap(entries);
    forall i | 0 <= i < |entries|
      ensures Entries(d)[i] == entries[i]
    {
      assert d.channels[i] == entries[i].0 && d.events[i] == entries[i].1;
    }
  }

  /** Every aligned adapter is the one built from its own entries. */
  lemma FromEntries(d: Data)
    requires Aligned(d)
    ensures FromMap(Entries(d)) == d
  {
    var d' := FromMap(Entries(d));
    assert d'.channels == d.channels;
    assert d'.events == d.events;
  }

  /** The channel of row `position`: the key of the row's entry. */
  function GetChannel(d: Data, position: int): (ch: Channel)
    requires 0 <= position < |d.channels|
    ensures Aligned(d) ==> ch == Entries(d)[position].0
  {
    d.channels[position]
  }

  /** The events of row `channelPosition`: the value of the row's entry. */
  function GetEvents(d: Data, channelPosition: int): (es: seq<Event>)
    requires 0 <= channelPosition < |d.events|
    ensures Aligned(d) ==> es == Entries(d)[channelPosition].1
  {
    d.events[channelPosition]
  }

  /** One event, looked up through its channel's list; the indices must be in range (the adapter checks nothing). */
  function GetEvent(d: Data, channelPosition: int, programPosition: int): (e: Event)
    requires 0 <= channelPosition < |d.events|
    requires 0 <= programPosition < |d.events[channelPosition]|
    ensures e == GetEvents(d, channelPosition)[programPosition]
    ensures e in GetEvents(d, channelPosition)
  {
    d.events[channelPosition][programPosition]
  }

  /** The number of channels, which is also the number of event lists. */
  function ChannelCount(d: Data): (n: nat)
    ensures Aligned(d) ==> n == |d.events| && n == |Entries(d)|
  {
    |d.channels|
  }

  /** The adapter has data exactly when it holds at least one channel. */
  function HasData(d: Data): (b: bool)
    ensures b <==> ChannelCount(d) > 0
  {
    d.channels != []
  }

  /** The channel count of a constructed adapter is the number of map entries, and it has data iff the map is not empty. */
  lemma CountMatchesInput(entries: seq<Entry>)
    ensures ChannelCount(FromMap(entries)) == |entries|
    ensures HasData(FromMap(entries)) <==> entries != []
  {
  }

  /** After construction, row i pairs the channel and the event list of input entry i. */
  lemma RowsComeFromOneEntry(entries: seq<Entry>, i: int)
    requires 0 <= i < |entries|
    ensures GetChannel(FromMap(entries), i) == entries[i].0
    ensures GetEvents(FromMap(entries), i) == entries[i].1
  {
  }

  /**
   Clears the highlight of every event of every channel, walking the lists in
   order. Nothing else about the data changes.
   */
  method CleanSelection(d: Data) returns (d': Data)
    ensures d'.channels == d.channels
    ensures |d'.events| == |d.events|
    ensures forall c :: 0 <= c < |d.events| ==> |d'.events[c]| == |d.events[c]|
    ensures forall c, p :: 0 <= c < |d.events| && 0 <= p < |d.events[c]| ==>
              d'.events[c][p] == d.events[c][p].(selected := false)
    ensures NoneSelected(d')
  {
    var cleaned: seq<seq<Event>> := [];
    var c := 0;
    while c < |d.events|
      invariant 0 <= c <= |d.events|
      invariant |cleaned| == c
      invariant forall k :: 0 <= k < c ==> |cleaned[k]| == |d.events[k]|
      invariant forall k, p :: 0 <= k < c && 0 <= p < |d.events[k]| ==>
                  cleaned[k][p] == d.events[k][p].(selected := false)
    {
      var row := d.events[c];
      var out: seq<Event> := [];
      var p := 0;
      while p < |row|
        invariant 0 <= p <= |row|
        invariant |out| == p
        invariant forall q :: 0 <= q < p ==> out[q] == row[q].(selected := false)
      {
        var e := row[p];
        if e.selected {
          e := e.(selected := false);
        }
        out := out + [e];
        p := p + 1;
      }
      cleaned := cleaned + [out];
      c := c + 1;
    }
    d' := Data(d.channels, cleaned);
  }
}
