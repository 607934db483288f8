/** The `epg_programs` table and the queries and mutations of `EpgDao`: the
    programme guide of each channel, keyed by the guide's channel id, with
    start and end times in epoch milliseconds. */
module Epg {
  import opened Models
  import opened Tables

  /** `channelId = :c AND endTime > :t`: a programme of `c` not yet over at `t`. */
  function NotOverAt(channelId: string, time: int): EpgProgram -> bool {
    (p: EpgProgram) => p.channelId == channelId && p.endTime > time
  }

  /** `channelId = :c AND startTime <= :t AND endTime > :t`: on air at `t`. */
  function OnAirAt(channelId: string, time: int): EpgProgram -> bool {
    (p: EpgProgram) => p.channelId == channelId && p.startTime <= time && p.endTime > time
  }

  /** The rows `DELETE ... WHERE endTime < :t` keeps. */
  function EndsNoEarlierThan(time: int): EpgProgram -> bool {
    (p: EpgProgram) => !(p.endTime < time)
  }

  /** `ORDER BY startTime ASC`. */
  predicate StartLe(a: EpgProgram, b: EpgProgram) { a.startTime <= b.startTime }

  lemma StartOrder()
    ensures TotalPreorder(StartLe)
  {
  }

  /** `getProgramsForChannel`: exactly the programmes of that channel that end
      after `time`, by start time. */
  function ProgramsForChannel(rows: seq<EpgProgram>, channelId: string, time: int): (r: seq<EpgProgram>)
    ensures forall x :: multiset(r)[x] ==
              if x.channelId == channelId && x.endTime > time then multiset(rows)[x] else 0
    ensures forall i, j :: 0 <= i < j < |r| ==> r[i].startTime <= r[j].startTime
  {
    StartOrder();
    SortBy(Where(rows, NotOverAt(channelId, time)), StartLe)
  }

  /** `getCurrentProgram`: a programme of that channel on air at `time`, null
      exactly when there is none. With overlapping entries SQL does not say
      which one; here it is the first in insertion order. */
  function CurrentProgram(rows: seq<EpgProgram>, channelId: string, time: int): (r: Option<EpgProgram>)
    ensures r.Some? ==> && r.value in rows
                        && r.value.channelId == channelId
                        && r.value.startTime <= time < r.value.endTime
    ensures r.None? <==> forall x :: x in rows && x.channelId == channelId ==>
                                      !(x.startTime <= time < x.endTime)
  {
    FirstWhere(rows, OnAirAt(channelId, time))
  }

  /** The rows left after `deleteOldPrograms(time)`. */
  function Pruned(rows: seq<EpgProgram>, time: int): (r: seq<EpgProgram>)
    ensures forall x :: multiset(r)[x] == if x.endTime < time then 0 else multiset(rows)[x]
  {
    Where(rows, EndsNoEarlierThan(time))
  }

  /** Pruning at `time` keeps every programme a later query needs: both
      queries at any `t >= time - 1` give the same answer before and after.
      (A programme ending exactly at `time` survives, and one ending at
      `time - 1` is already over at `time - 1`.) */
  lemma PruneKeepsLaterQueries(rows: seq<EpgProgram>, time: int, channelId: string, t: int)
    requires t >= time - 1
    ensures ProgramsForChannel(Pruned(rows, time), channelId, t) == ProgramsForChannel(rows, channelId, t)
    ensures CurrentProgram(Pruned(rows, time), channelId, t) == CurrentProgram(rows, channelId, t)
  {
    WhereOfWhere(rows, EndsNoEarlierThan(time), NotOverAt(channelId, t));
    FirstWhereOfWhere(rows, EndsNoEarlierThan(time), OnAirAt(channelId, t));
  }

  /** `copy(id = id)`. */
  function WithId(p: EpgProgram, id: int): EpgProgram { p.(id := id) }

  lemma WithIdSetsKey()
    ensures SetsKey(ProgramId, WithId)
  {
  }

  /** `insertProgram`: the programme, with the id the table assigns, replaces
      any row with that id and every other row stays; id 0 gets a fresh id. */
  function InsertOne(rows: seq<EpgProgram>, nextId: int, p: EpgProgram): (r: (seq<EpgProgram>, int))
    requires KeyedTable(rows, ProgramId, nextId)
    ensures KeyedTable(r.0, ProgramId, r.1)
    ensures var x := p.(id := AssignedKey(p.id, nextId));
            forall y :: y in r.0 <==> y == x || (y in rows && y.id != x.id)
  {
    WithIdSetsKey();
    InsertRow(rows, nextId, ProgramId, WithId, p)
  }

  /** `insertPrograms`: the programmes inserted one after another, in order. */
  function InsertAll(rows: seq<EpgProgram>, nextId: int, ps: seq<EpgProgram>): (r: (seq<EpgProgram>, int))
    requires KeyedTable(rows, ProgramId, nextId)
    ensures KeyedTable(r.0, ProgramId, r.1)
    ensures ps == [] ==> r == (rows, nextId)
    ensures ps != [] ==> var t := InsertAll(rows, nextId, ps[..|ps| - 1]);
                         r == InsertOne(t.0, t.1, ps[|ps| - 1])
  {
    WithIdSetsKey();
    InsertRows(rows, nextId, ProgramId, WithId, ps)
  }

  /** The guide DAO over its table. `rows` is the table in insertion order (the rowid order while keys come
      from AUTOINCREMENT) and
      `nextId` the key AUTOINCREMENT hands out next. */
  class EpgDao {
    var rows: seq<EpgProgram>
    var nextId: int

    ghost predicate Valid()
      reads this
    {
      KeyedTable(rows, ProgramId, nextId)
    }

    constructor ()
      ensures Valid() && rows == [] && nextId == 1
    {
      rows := [];
      nextId := 1;
    }

    /** `insertProgram`. */
    method InsertProgram(p: EpgProgram)
      requires Valid()
      modifies this
      ensures Valid()
      ensures (rows, nextId) == InsertOne(old(rows), old(nextId), p)
    {
      var t := InsertOne(rows, nextId, p);
      rows, nextId := t.0, t.1;
    }

    /** `insertPrograms`: one insert per programme, in list order. */
    method InsertPrograms(ps: seq<EpgProgram>)
      requires Valid()
      modifies this
      ensures Valid()
      ensures (rows, nextId) == InsertAll(old(rows), old(nextId), ps)
    {
      var i := 0;
      while i < |ps|
        invariant 0 <= i <= |ps|
        invariant Valid()
        invariant (rows, nextId) == InsertAll(old(rows), old(nextId), ps[..i])
      {
        assert ps[..i + 1][..i] == ps[..i];
        InsertProgram(ps[i]);
        i := i + 1;
      }
      assert ps[..i] == ps;
    }

    /** `deleteOldPrograms`: removes exactly the programmes that ended before
      `time`; one ending at `time` stays. */
    method DeleteOldPrograms(time: int)
      requires Valid()
      modifies this
      ensures Valid()
      ensures rows == Pruned(old(rows), time) && nextId == old(nextId)
      ensures forall x :: x in rows <==> x in old(rows) && x.endTime >= time
    {
      WhereKeepsKeyed(rows, ProgramId, nextId, EndsNoEarlierThan(time));
      rows := Pruned(rows, time);
    }

    /** `deleteAllPrograms`: the table is empty afterwards. The AUTOINCREMENT
      counter is not reset, so ids are not reused. */
    method DeleteAllPrograms()
      requires Valid()
      modifies this
      ensures Valid()
      ensures rows == [] && nextId == old(nextId)
    {
      rows := [];
    }
  }
}
