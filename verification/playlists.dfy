/** The `playlists` table and the queries and mutations of `PlaylistDao`. */
module Playlists {
  import opened Models
  import opened Text
  import opened Tables

  function NotId(id: int): Playlist -> bool { (p: Playlist) => p.id != id }

  /** `ORDER BY name ASC` under SQLite's BINARY collation. */
  predicate NameLe(a: Playlist, b: Playlist) { TextLe(a.name, b.name) }

  lemma NameOrder()
    ensures TotalPreorder(NameLe)
  {
    forall a: Playlist, b: Playlist ensures NameLe(a, b) || NameLe(b, a) {
      TextLeTotal(a.name, b.name);
    }
    forall a: Playlist, b: Playlist, c: Playlist | NameLe(a, b) && NameLe(b, c)
      ensures NameLe(a, c)
    {
      TextLeTransitive(a.name, b.name, c.name);
    }
  }

  /** `getAllPlaylists`: every row exactly once, ordered by name. */
  function AllPlaylists(rows: seq<Playlist>): (r: seq<Playlist>)
    ensures multiset(r) == multiset(rows)
    ensures forall i, j :: 0 <= i < j < |r| ==> TextLe(r[i].name, r[j].name)
  {
    NameOrder();
    SortBy(rows, NameLe)
  }

  /** `getPlaylistById`: the row with that id, or null. */
  function PlaylistById(rows: seq<Playlist>, id: int): (r: Option<Playlist>)
    ensures r.Some? ==> r.value in rows && r.value.id == id
    ensures r.None? <==> forall p :: p in rows ==> p.id != id
    ensures DistinctKeys(rows, PlaylistId) ==> forall p :: p in rows && p.id == id ==> r == Some(p)
  {
    var r := Lookup(rows, PlaylistId, id);
    assert r.None? ==> forall p :: p in rows ==> p.id != id by {
      if r.None? {
        forall p | p in rows ensures p.id != id {
          var i :| 0 <= i < |rows| && rows[i] == p;
        }
      }
    }
    r
  }

  /** `copy(id = id)`. */
  function WithId(p: Playlist, id: int): Playlist { p.(id := id) }

  lemma WithIdSetsKey()
    ensures SetsKey(PlaylistId, WithId)
  {
  }

  /** `insertPlaylist`: the playlist, with the id the table assigns, replaces
      any row with that id and every other row stays; id 0 gets a fresh id. */
  function InsertOne(rows: seq<Playlist>, nextId: int, p: Playlist): (r: (seq<Playlist>, int))
    requires KeyedTable(rows, PlaylistId, nextId)
    ensures KeyedTable(r.0, PlaylistId, r.1)
    ensures var x := p.(id := AssignedKey(p.id, nextId));
            forall y :: y in r.0 <==> y == x || (y in rows && y.id != x.id)
    ensures p.id == 0 ==> r.0 == rows + [p.(id := nextId)]
  {
    WithIdSetsKey();
    InsertRow(rows, nextId, PlaylistId, WithId, p)
  }

  /** The playlist DAO over its table. `rows` is the table in insertion order (the rowid order while keys come
      from AUTOINCREMENT) and
      `nextId` the key AUTOINCREMENT hands out next. */
  class PlaylistDao {
    var rows: seq<Playlist>
    var nextId: int

    ghost predicate Valid()
      reads this
    {
      KeyedTable(rows, PlaylistId, nextId)
    }

    constructor ()
      ensures Valid() && rows == [] && nextId == 1
    {
      rows := [];
      nextId := 1;
    }

    /** `insertPlaylist`: returns the id of the stored row. */
    method InsertPlaylist(p: Playlist) returns (rowId: int)
      requires Valid()
      modifies this
      ensures Valid()
      ensures rowId == AssignedKey(p.id, old(nextId)) && rowId != 0
      ensures (rows, nextId) == InsertOne(old(rows), old(nextId), p)
      ensures PlaylistById(rows, rowId) == Some(p.(id := rowId))
    {
      rowId := AssignedKey(p.id, nextId);
      var t := InsertOne(rows, nextId, p);
      rows, nextId := t.0, t.1;
      assert p.(id := rowId) in rows;
    }

    /** `updatePlaylist`: the row with the playlist's id takes every column
      from it; with no such row nothing changes. */
    method UpdatePlaylist(p: Playlist)
      requires Valid()
      modifies this
      ensures Valid()
      ensures rows == Replace(old(rows), PlaylistId, p) && nextId == old(nextId)
    {
      ReplaceKeepsKeyed(rows, PlaylistId, nextId, p);
      rows := Replace(rows, PlaylistId, p);
    }

    /** `deletePlaylist`: removes the row with the playlist's id, only that
      one. No other table is touched: the channels of the playlist stay. */
    method DeletePlaylist(p: Playlist)
      requires Valid()
      modifies this
      ensures Valid()
      ensures rows == Where(old(rows), NotId(p.id)) && nextId == old(nextId)
      ensures forall x :: x in rows <==> x in old(rows) && x.id != p.id
    {
      WhereKeepsKeyed(rows, PlaylistId, nextId, NotId(p.id));
      rows := Where(rows, NotId(p.id));
    }
  }
}
