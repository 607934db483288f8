/** The three Room entities of the player (channels, programme guide entries and
    playlists) and the Option type that stands for Kotlin's nullable values. */
module Models {

  /** Kotlin's `T?`: a value that may be null. */
  datatype Option<+T> = None | Some(value: T) {
    /** The value, or `default` when it is null (Kotlin's `?:`). */
    function GetOr(default: T): T {
      match this
      case Some(v) => v
      case None => default
    }
  }

  /** A row of the `channels` table. `id` 0 means "not yet stored": the table
      assigns a fresh id on insert. `position` is the channel's place in the
      playlist it came from. */
  datatype Channel = Channel(
    id: int,
    name: string,
    url: string,
    logo: Option<string>,
    groupTitle: Option<string>,
    tvgId: Option<string>,
    tvgName: Option<string>,
    playlistId: int,
    isFavorite: bool,
    position: int)

  /** A row of the `epg_programs` table. `channelId` is the guide's channel id
      (a channel's `tvgId`), not the numeric id of a `Channel` row. Times are
      epoch milliseconds. */
  datatype EpgProgram = EpgProgram(
    id: int,
    channelId: string,
    title: string,
    description: Option<string>,
    startTime: int,
    endTime: int,
    icon: Option<string>)

  /** A row of the `playlists` table. `lastUpdated` defaults to the wall clock
      when the row is built, so here it is whatever the caller passes. */
  datatype Playlist = Playlist(
    id: int,
    name: string,
    url: string,
    epgUrl: Option<string>,
    lastUpdated: int)

  function ChannelId(c: Channel): int { c.id }
  function ProgramId(p: EpgProgram): int { p.id }
  function PlaylistId(p: Playlist): int { p.id }
}
