/** The `channels` table and the queries and mutations of `ChannelDao`. The
    queries are functions of the table's rows; the mutations are methods of
    the DAO object, which owns the rows and the AUTOINCREMENT counter. */
module Channels {
  import opened Models
  import opened Tables

  // --- Row conditions of the `WHERE` clauses ----------------------------------

  function InPlaylist(playlistId: int): Channel -> bool { (c: Channel) => c.playlistId == playlistId }
  function NotInPlaylist(playlistId: int): Channel -> bool { (c: Channel) => c.playlistId != playlistId }
  function IsFavorite(): Channel -> bool { (c: Channel) => c.isFavorite }
  function InGroup(group: string): Channel -> bool { (c: Channel) => c.groupTitle == Some(group) }
  function NotId(id: int): Channel -> bool { (c: Channel) => c.id != id }

  /** `ORDER BY position ASC`. */
  predicate PositionLe(a: Channel, b: Channel) { a.position <= b.position }

  lemma PositionOrder()
    ensures TotalPreorder(PositionLe)
  {
  }

  // --- Queries ----------------------------------------------------------------

  /** The rows satisfying `p`, ordered by position. */
  function ByPosition(rows: seq<Channel>, p: Channel -> bool): (r: seq<Channel>)
    ensures forall x :: multiset(r)[x] == if p(x) then multiset(rows)[x] else 0
    ensures forall i, j :: 0 <= i < j < |r| ==> r[i].position <= r[j].position
  {
    PositionOrder();
    SortBy(Where(rows, p), PositionLe)
  }

  /** `getAllChannels`: every row exactly once, by position. */
  function AllChannels(rows: seq<Channel>): (r: seq<Channel>)
    ensures multiset(r) == multiset(rows)
    ensures forall i, j :: 0 <= i < j < |r| ==> r[i].position <= r[j].position
  {
    PositionOrder();
    SortBy(rows, PositionLe)
  }

  /** `getChannelsByPlaylist`: exactly the rows of that playlist, by position. */
  function ChannelsByPlaylist(rows: seq<Channel>, playlistId: int): (r: seq<Channel>)
    ensures forall x :: multiset(r)[x] == if x.playlistId == playlistId then multiset(rows)[x] else 0
    ensures forall i, j :: 0 <= i < j < |r| ==> r[i].position <= r[j].position
  {
    ByPosition(rows, InPlaylist(playlistId))
  }

  /** `getFavoriteChannels`: exactly the favourite rows, by position. */
  function FavoriteChannels(rows: seq<Channel>): (r: seq<Channel>)
    ensures forall x :: multiset(r)[x] == if x.isFavorite then multiset(rows)[x] else 0
    ensures forall i, j :: 0 <= i < j < |r| ==> r[i].position <= r[j].position
  {
    ByPosition(rows, IsFavorite())
  }

  /** `getChannelsByGroup`: exactly the rows whose group is `group` (a row
      with no group never matches), by position. */
  function ChannelsByGroup(rows: seq<Channel>, group: string): (r: seq<Channel>)
    ensures forall x :: multiset(r)[x] == if x.groupTitle == Some(group) then multiset(rows)[x] else 0
    ensures forall i, j :: 0 <= i < j < |r| ==> r[i].position <= r[j].position
  {
    ByPosition(rows, InGroup(group))
  }

  /** `getAllGroups`: each group title present in the table, once; rows with no
      group contribute nothing. SQL leaves the order open; here it is the order
      of first appearance. */
  function AllGroups(rows: seq<Channel>): (r: seq<string>)
    ensures forall g :: g in r <==> exists c :: c in rows && c.groupTitle == Some(g)
    ensures forall i, j :: 0 <= i < j < |r| ==> r[i] != r[j]
  {
    if rows == [] then []
    else
      var init, last := rows[..|rows| - 1], rows[|rows| - 1];
      var rest := AllGroups(init);
      assert rows == init + [last];
      assert forall c :: c in rows <==> c in init || c == last;
      match last.groupTitle
      case None => rest
      case Some(g) => if g in rest then rest else rest + [g]
  }

  /** `getChannelById`: the row with that id, or null. */
  function ChannelById(rows: seq<Channel>, id: int): (r: Option<Channel>)
    ensures r.Some? ==> r.value in rows && r.value.id == id
    ensures r.None? <==> forall c :: c in rows ==> c.id != id
    ensures DistinctKeys(rows, ChannelId) ==> forall c :: c in rows && c.id == id ==> r == Some(c)
  {
    var r := Lookup(rows, ChannelId, id);
    assert r.None? ==> forall c :: c in rows ==> c.id != id by {
      if r.None? {
        forall c | c in rows ensures c.id != id {
          var i :| 0 <= i < |rows| && rows[i] == c;
        }
      }
    }
    r
  }

  // --- The table's state changes, as functions ----------------------------------

  /** `UPDATE channels SET isFavorite = b WHERE id = :id`: only the flag of the
      row with that id changes. */
  function SetFavorite(rows: seq<Channel>, id: int, b: bool): (r: seq<Channel>)
    ensures |r| == |rows|
    ensures forall i :: 0 <= i < |r| ==>
              r[i] == if rows[i].id == id then rows[i].(isFavorite := b) else rows[i]
  {
    if rows == [] then []
    else [if rows[0].id == id then rows[0].(isFavorite := b) else rows[0]] + SetFavorite(rows[1..], id, b)
  }

  /** Setting the flag back to the value it had restores the table. */
  lemma FavoriteRoundTrip(rows: seq<Channel>, id: int, b: bool)
    requires forall c :: c in rows && c.id == id ==> c.isFavorite == b
    ensures SetFavorite(SetFavorite(rows, id, !b), id, b) == rows
  {
    var r := SetFavorite(SetFavorite(rows, id, !b), id, b);
    forall i | 0 <= i < |rows| ensures r[i] == rows[i] {
      assert rows[i] in rows;
    }
  }

  /** Setting the flag twice to the same value is setting it once. */
  lemma SetFavoriteIdempotent(rows: seq<Channel>, id: int, b: bool)
    ensures SetFavorite(SetFavorite(rows, id, b), id, b) == SetFavorite(rows, id, b)
  {
    var once := SetFavorite(rows, id, b);
    var twice := SetFavorite(once, id, b);
    assert forall i :: 0 <= i < |once| ==> twice[i] == once[i];
  }

  lemma SetFavoriteKeepsKeyed(rows: seq<Channel>, nextId: int, id: int, b: bool)
    requires KeyedTable(rows, ChannelId, nextId)
    ensures KeyedTable(SetFavorite(rows, id, b), ChannelId, nextId)
  {
    var r := SetFavorite(rows, id, b);
    assert forall i :: 0 <= i < |r| ==> r[i].id == rows[i].id;
  }

  /** `copy(id = id)`. */
  function WithId(c: Channel, id: int): Channel { c.(id := id) }

  lemma WithIdSetsKey()
    ensures SetsKey(ChannelId, WithId)
  {
  }

  /** `insertChannel`: the channel, with the id the table assigns, replaces any
      row with that id and every other row stays; id 0 gets a fresh id. */
  function InsertOne(rows: seq<Channel>, nextId: int, c: Channel): (r: (seq<Channel>, int))
    requires KeyedTable(rows, ChannelId, nextId)
    ensures KeyedTable(r.0, ChannelId, r.1)
    ensures var x := c.(id := AssignedKey(c.id, nextId));
            forall y :: y in r.0 <==> y == x || (y in rows && y.id != x.id)
  {
    WithIdSetsKey();
    InsertRow(rows, nextId, ChannelId, WithId, c)
  }

  /** `insertChannels`: the channels inserted one after another, in order. */
  function InsertAll(rows: seq<Channel>, nextId: int, cs: seq<Channel>): (r: (seq<Channel>, int))
    requires KeyedTable(rows, ChannelId, nextId)
    ensures KeyedTable(r.0, ChannelId, r.1)
    ensures cs == [] ==> r == (rows, nextId)
    ensures cs != [] ==> var t := InsertAll(rows, nextId, cs[..|cs| - 1]);
                         r == InsertOne(t.0, t.1, cs[|cs| - 1])
  {
    WithIdSetsKey();
    InsertRows(rows, nextId, ChannelId, WithId, cs)
  }

  /** Inserting channels that carry id 0, as the parser builds them, never
      replaces anything: they are appended with consecutive fresh ids and every
      existing row, favourite flags included, stays as it was. Importing the
      same playlist twice therefore stores its channels twice. */
  lemma FreshInsertsAppend(rows: seq<Channel>, nextId: int, cs: seq<Channel>)
    requires KeyedTable(rows, ChannelId, nextId)
    requires forall i :: 0 <= i < |cs| ==> cs[i].id == 0
    ensures var r := InsertAll(rows, nextId, cs);
            && |r.0| == |rows| + |cs|
            && r.0[..|rows|] == rows
            && (forall i :: 0 <= i < |cs| ==> r.0[|rows| + i] == cs[i].(id := nextId + i))
            && r.1 == nextId + |cs|
  {
    WithIdSetsKey();
    FreshRowsAppend(rows, nextId, ChannelId, WithId, cs);
  }

  /** The channel DAO over its table. `rows` is the table in insertion order (the rowid order while keys come
      from AUTOINCREMENT) and
      `nextId` the key AUTOINCREMENT hands out next. */
  class ChannelDao {
    var rows: seq<Channel>
    var nextId: int

    ghost predicate Valid()
      reads this
    {
      KeyedTable(rows, ChannelId, nextId)
    }

    constructor ()
      ensures Valid() && rows == [] && nextId == 1
    {
      rows := [];
      nextId := 1;
    }

    /** `insertChannel`: returns the row id of the stored channel. */
    method InsertChannel(c: Channel) returns (rowId: int)
      requires Valid()
      modifies this
      ensures Valid()
      ensures rowId == AssignedKey(c.id, old(nextId)) && rowId != 0
      ensures (rows, nextId) == InsertOne(old(rows), old(nextId), c)
      ensures ChannelById(rows, rowId) == Some(c.(id := rowId))
    {
      rowId := AssignedKey(c.id, nextId);
      var t := InsertOne(rows, nextId, c);
      rows, nextId := t.0, t.1;
      assert c.(id := rowId) in rows;
    }

    /** `insertChannels`: one insert per channel, in list order. */
    method InsertChannels(cs: seq<Channel>)
      requires Valid()
      modifies this
      ensures Valid()
      ensures (rows, nextId) == InsertAll(old(rows), old(nextId), cs)
    {
      var i := 0;
      while i < |cs|
        invariant 0 <= i <= |cs|
        invariant Valid()
        invariant (rows, nextId) == InsertAll(old(rows), old(nextId), cs[..i])
      {
        assert cs[..i + 1][..i] == cs[..i];
        var _ := InsertChannel(cs[i]);
        i := i + 1;
      }
      assert cs[..i] == cs;
    }

    /** `updateChannel`: the row with the channel's id takes every column from
      it; with no such row nothing changes. */
    method UpdateChannel(c: Channel)
      requires Valid()
      modifies this
      ensures Valid()
      ensures rows == Replace(old(rows), ChannelId, c) && nextId == old(nextId)
    {
      ReplaceKeepsKeyed(rows, ChannelId, nextId, c);
      rows := Replace(rows, ChannelId, c);
    }

    /** `deleteChannel`: removes the row with the channel's id, only that one. */
    method DeleteChannel(c: Channel)
      requires Valid()
      modifies this
      ensures Valid()
      ensures rows == Where(old(rows), NotId(c.id)) && nextId == old(nextId)
      ensures forall x :: x in rows <==> x in old(rows) && x.id != c.id
    {
      WhereKeepsKeyed(rows, ChannelId, nextId, NotId(c.id));
      rows := Where(rows, NotId(c.id));
    }

    /** `deleteChannelsByPlaylist`: removes exactly the rows of that playlist. */
    method DeleteChannelsByPlaylist(playlistId: int)
      requires Valid()
      modifies this
      ensures Valid()
      ensures rows == Where(old(rows), NotInPlaylist(playlistId)) && nextId == old(nextId)
      ensures forall x :: x in rows <==> x in old(rows) && x.playlistId != playlistId
    {
      WhereKeepsKeyed(rows, ChannelId, nextId, NotInPlaylist(playlistId));
      rows := Where(rows, NotInPlaylist(playlistId));
    }

    /** `updateFavorite`: sets the flag of the row with that id and nothing else. */
    method UpdateFavorite(id: int, isFavorite: bool)
      requires Valid()
      modifies this
      ensures Valid()
      ensures rows == SetFavorite(old(rows), id, isFavorite) && nextId == old(nextId)
    {
      SetFavoriteKeepsKeyed(rows, nextId, id, isFavorite);
      rows := SetFavorite(rows, id, isFavorite);
    }
  }
}
