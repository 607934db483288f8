/** The channel navigation of the full-screen player: up and down step through
    the channel list with wrap-around, digit keys collect a channel number of
    at most four digits that is confirmed by Enter or by a timer, and Menu
    flips the favourite flag of the playing channel in the channel table.

    The activity is a class whose fields the key handlers update. Each handler
    is proved against a function on a snapshot `Nav` of those fields, and the
    promises of the player are proved about those functions. */
module Player {
  import opened Models
  import opened Text
  import opened Tables
  import opened Channels

  // Android key codes (android.view.KeyEvent).
  const KEYCODE_BACK := 4
  const KEYCODE_0 := 7
  const KEYCODE_9 := 16
  const KEYCODE_DPAD_UP := 19
  const KEYCODE_DPAD_DOWN := 20
  const KEYCODE_DPAD_CENTER := 23
  const KEYCODE_ENTER := 66
  const KEYCODE_MENU := 82

  /** The most digits the number buffer holds. */
  const MAX_DIGITS := 4
  /** A stream URL containing this is played as HLS. */
  const HLS_MARKER := ".m3u8"
  /** `getLongExtra("CHANNEL_ID", -1)`: no channel. */
  const NO_CHANNEL := -1

  /** What the player is given to play: an HLS source or a plain media item. */
  datatype MediaSource = Hls(uri: string) | Progressive(uri: string)

  /** `true` from `onKeyDown` (the key is consumed) or the answer of the
      default handler (the key is passed on). */
  datatype KeyResult = Consumed | PassedOn

  // --- Digits ---------------------------------------------------------------

  predicate IsDigitKey(keyCode: int) { KEYCODE_0 <= keyCode <= KEYCODE_9 }

  predicate IsConfirmKey(keyCode: int) { keyCode == KEYCODE_ENTER || keyCode == KEYCODE_DPAD_CENTER }

  /** The digit a number key types. */
  function DigitOf(keyCode: int): (c: char)
    requires IsDigitKey(keyCode)
    ensures '0' <= c <= '9'
    ensures c as int - '0' as int == keyCode - KEYCODE_0
  {
    (keyCode - KEYCODE_0 + '0' as int) as char
  }

  predicate IsDigits(s: string) {
    forall i :: 0 <= i < |s| ==> '0' <= s[i] <= '9'
  }

  function Pow10(k: nat): (p: nat)
    ensures p >= 1
  {
    if k == 0 then 1 else 10 * Pow10(k - 1)
  }

  /** `toIntOrNull()` on a string of decimal digits (leading zeros allowed). */
  function DecimalValue(s: string): (n: nat)
    requires IsDigits(s)
    ensures n < Pow10(|s|)
  {
    if s == [] then 0
    else
      var init := s[..|s| - 1];
      assert IsDigits(init) by {
        forall i | 0 <= i < |init| ensures '0' <= init[i] <= '9' {
          assert init[i] == s[i];
        }
      }
      10 * DecimalValue(init) + (s[|s| - 1] as int - '0' as int)
  }

  /** A number is 0 exactly when every digit typed is `0`: "0" and "0000"
      never name a channel. */
  lemma {:induction false} DecimalValueZero(s: string)
    requires IsDigits(s)
    ensures DecimalValue(s) == 0 <==> forall i :: 0 <= i < |s| ==> s[i] == '0'
  {
    if s != [] {
      var init := s[..|s| - 1];
      assert IsDigits(init) by {
        forall i | 0 <= i < |init| ensures '0' <= init[i] <= '9' {
          assert init[i] == s[i];
        }
      }
      DecimalValueZero(init);
      assert forall i :: 0 <= i < |init| ==> init[i] == s[i];
    }
  }

  /** At most four digits name a channel number of at most 9999, so the
      conversion never overflows a Kotlin `Int` and never yields null. */
  lemma FourDigitsBound(s: string)
    requires IsDigits(s) && |s| <= MAX_DIGITS
    ensures DecimalValue(s) <= 9999
  {
    assert Pow10(|s|) <= Pow10(4) by {
      if |s| < 4 {
        PowMonotone(|s|, 4);
      }
    }
  }

  lemma {:induction false} PowMonotone(a: nat, b: nat)
    requires a <= b
    ensures Pow10(a) <= Pow10(b)
    decreases b
  {
    if a < b {
      PowMonotone(a, b - 1);
    }
  }

  // --- Searching and stepping through the channel list --------------------

  /** Kotlin's `indexOfFirst { it.id == id }`. */
  function IndexOfFirst(channels: seq<Channel>, id: int): (r: int)
    ensures -1 <= r < |channels|
    ensures r >= 0 ==> channels[r].id == id && forall j :: 0 <= j < r ==> channels[j].id != id
    ensures r == -1 <==> forall j :: 0 <= j < |channels| ==> channels[j].id != id
  {
    if channels == [] then -1
    else if channels[0].id == id then 0
    else
      var k := IndexOfFirst(channels[1..], id);
      assert forall j :: 1 <= j < |channels| ==> channels[j] == channels[1..][j - 1];
      if k == -1 then -1 else k + 1
  }

  /** `(index + direction + size) % size` for one step up (-1) or down (+1):
      the neighbour in the list, wrapping from the first channel to the last
      and from the last to the first. */
  function StepIndex(index: int, direction: int, size: int): (r: int)
    requires 0 <= index < size && (direction == 1 || direction == -1)
    ensures 0 <= r < size
    ensures direction == -1 ==> r == if index == 0 then size - 1 else index - 1
    ensures direction == 1 ==> r == if index == size - 1 then 0 else index + 1
  {
    WrapCases(index, direction, size);
    (index + direction + size) % size
  }

  lemma WrapCases(index: int, direction: int, size: int)
    requires 0 <= index < size && (direction == 1 || direction == -1)
    ensures direction == -1 ==> (index + direction + size) % size == if index == 0 then size - 1 else index - 1
    ensures direction == 1 ==> (index + direction + size) % size == if index == size - 1 then 0 else index + 1
  {
    var x := index + direction + size;
    if direction == -1 && index == 0 {
      ModUnique(x, size, 0, size - 1);
    } else if direction == -1 {
      ModUnique(x, size, 1, index - 1);
    } else if index == size - 1 {
      ModUnique(x, size, 2, 0);
    } else {
      ModUnique(x, size, 1, index + 1);
    }
  }

  /** Where `presses` presses of down lead from `index`. */
  function DownPresses(index: int, size: int, presses: nat): (r: int)
    requires 0 <= index < size
    ensures 0 <= r < size
  {
    if presses == 0 then index else StepIndex(DownPresses(index, size, presses - 1), 1, size)
  }

  /** Down moves through the whole list cyclically: after `k` presses the index
      is `(index + k) mod size`, so `size` presses come back to the start. */
  lemma {:induction false} DownPressesCycle(index: int, size: int, presses: nat)
    requires 0 <= index < size
    ensures DownPresses(index, size, presses) == (index + presses) % size
  {
    if presses > 0 {
      DownPressesCycle(index, size, presses - 1);
      ModStep(index + presses - 1, size);
    }
  }

  lemma ModStep(a: nat, size: int)
    requires size > 0
    ensures (a + 1) % size == if a % size == size - 1 then 0 else a % size + 1
  {
    var q, m := a / size, a % size;
    if m == size - 1 {
      ModUnique(a + 1, size, q + 1, 0);
    } else {
      ModUnique(a + 1, size, q, m + 1);
    }
  }

  /** The remainder is the only `m` in `[0, size)` with `x == q * size + m`. */
  lemma ModUnique(x: int, size: int, q: int, m: int)
    requires size > 0 && 0 <= m < size && x == q * size + m
    ensures x % size == m
  {
    var q0, m0 := x / size, x % size;
    assert (q0 - q) * size == m - m0;
    if q0 > q {
      MulAtLeast(q0 - q, size);
    } else if q0 < q {
      assert (q - q0) * size == m0 - m;
      MulAtLeast(q - q0, size);
    }
  }

  lemma {:induction false} MulAtLeast(k: int, b: int)
    requires k >= 1 && b >= 0
    ensures k * b >= b
    decreases k
  {
    if k > 1 {
      MulAtLeast(k - 1, b);
      assert k * b == (k - 1) * b + b;
    }
  }

  /** Up undoes down and down undoes up. */
  lemma UpUndoesDown(index: int, size: int)
    requires 0 <= index < size
    ensures StepIndex(StepIndex(index, 1, size), -1, size) == index
    ensures StepIndex(StepIndex(index, -1, size), 1, size) == index
  {
  }

  // --- Choosing the media source --------------------------------------------

  /** `playChannel`: an HLS source when the URL contains ".m3u8", otherwise a
      plain media item for the same URL. */
  function PlaySource(url: string): (m: MediaSource)
    ensures m.Hls? <==> exists i :: OccursAt(url, HLS_MARKER, i)
    ensures m.uri == url
  {
    if Contains(url, HLS_MARKER) then Hls(url) else Progressive(url)
  }

  /** `setupPlayer` as written: the HLS source for a ".m3u8" URL, and for any
      other URL nothing, because the media item it builds is never handed to
      the player. */
  function SetupSource(url: string): (m: Option<MediaSource>)
    ensures m.Some? <==> exists i :: OccursAt(url, HLS_MARKER, i)
    ensures m.Some? ==> m.value == PlaySource(url)
  {
    if Contains(url, HLS_MARKER) then Some(Hls(url)) else None
  }

  /** The launch channel plays only when its URL is HLS; `playChannel` plays
      any URL. */
  lemma LaunchDropsProgressive(url: string)
    requires forall i :: !OccursAt(url, HLS_MARKER, i)
    ensures SetupSource(url) == None
    ensures PlaySource(url) == Progressive(url)
  {
  }

  lemma LaunchDropsProgressiveExample()
    ensures SetupSource("a.ts") == None
    ensures PlaySource("a.ts") == Progressive("a.ts")
  {
    assert forall i :: !OccursAt("a.ts", HLS_MARKER, i);
  }

  // --- The navigation state and how each event changes it -------------------

  /** A snapshot of the activity's navigation fields. `index` is
      `currentChannelIndex`, `buffer` the typed digits and `timerPending`
      whether the auto-confirm callback is posted. */
  datatype Nav = Nav(
    channelId: int,
    channelUrl: string,
    channelName: string,
    allChannels: seq<Channel>,
    index: int,
    buffer: string,
    timerPending: bool,
    nowPlaying: Option<MediaSource>,
    finished: bool)

  /** The index is a position of the list (0 while it is empty), the buffer
      holds at most four digits, and the timer is posted only for typed digits. */
  predicate Inv(s: Nav) {
    && (|s.allChannels| == 0 ==> s.index == 0)
    && (|s.allChannels| > 0 ==> 0 <= s.index < |s.allChannels|)
    && |s.buffer| <= MAX_DIGITS && IsDigits(s.buffer)
    && (s.timerPending ==> s.buffer != [])
  }

  /** `onCreate`: the extras of the launching intent (absent ones read as -1 or
      ""), an empty list until the table answers, and the launch source. */
  function Launch(extraId: Option<int>, extraUrl: Option<string>, extraName: Option<string>): (s: Nav)
    ensures Inv(s)
    ensures s.channelId == extraId.GetOr(NO_CHANNEL)
    ensures s.channelUrl == extraUrl.GetOr("") && s.channelName == extraName.GetOr("")
    ensures s.allChannels == [] && s.index == 0 && s.buffer == [] && !s.timerPending && !s.finished
    ensures s.nowPlaying == SetupSource(s.channelUrl)
  {
    var url := extraUrl.GetOr("");
    Nav(extraId.GetOr(NO_CHANNEL), url, extraName.GetOr(""), [], 0, [], false, SetupSource(url), false)
  }

  /** The `loadChannelList` observer: the new list, and the index of the first
      channel with the playing id, or 0 when none has it. */
  function Loaded(s: Nav, channels: seq<Channel>): (r: Nav)
    requires Inv(s)
    ensures Inv(r)
    ensures r.allChannels == channels
    ensures (exists i :: 0 <= i < |channels| && channels[i].id == s.channelId) ==>
              channels[r.index].id == s.channelId
              && forall j :: 0 <= j < r.index ==> channels[j].id != s.channelId
    ensures (forall i :: 0 <= i < |channels| ==> channels[i].id != s.channelId) ==> r.index == 0
    ensures r == s.(allChannels := channels, index := r.index)
  {
    var i := IndexOfFirst(channels, s.channelId);
    s.(allChannels := channels, index := if i == -1 then 0 else i)
  }

  /** `switchToChannel(channel, index)`: the channel becomes the playing one. */
  function SwitchTo(s: Nav, channel: Channel, index: int): (r: Nav)
    requires Inv(s) && 0 <= index < |s.allChannels|
    ensures Inv(r)
    ensures r.index == index && r.channelId == channel.id
    ensures r.channelUrl == channel.url && r.channelName == channel.name
    ensures r.nowPlaying == Some(PlaySource(channel.url))
    ensures r.allChannels == s.allChannels && r.buffer == s.buffer
    ensures r.timerPending == s.timerPending && r.finished == s.finished
  {
    s.(index := index, channelId := channel.id, channelUrl := channel.url,
       channelName := channel.name, nowPlaying := Some(PlaySource(channel.url)))
  }

  /** `changeChannelRelative(direction)`: nothing on an empty list, otherwise
      the neighbouring channel, wrapping around at both ends. */
  function StepRelative(s: Nav, direction: int): (r: Nav)
    requires Inv(s) && (direction == 1 || direction == -1)
    ensures Inv(r)
    ensures s.allChannels == [] ==> r == s
    ensures s.allChannels != [] ==>
              && r.index == StepIndex(s.index, direction, |s.allChannels|)
              && r.channelId == s.allChannels[r.index].id
              && r.channelUrl == s.allChannels[r.index].url
              && r.nowPlaying == Some(PlaySource(r.channelUrl))
              && r.buffer == s.buffer && r.timerPending == s.timerPending
    ensures s.allChannels != [] ==> r == SwitchTo(s, s.allChannels[r.index], r.index)
  {
    if s.allChannels == [] then s
    else
      var i := (s.index + direction + |s.allChannels|) % |s.allChannels|;
      SwitchTo(s, s.allChannels[i], i)
  }

  /** `handleNumberInput(keyCode)`: a digit key cancels the posted timer; the
      digit is appended, and the timer posted again, only while fewer than four
      digits are held. A fifth digit is dropped and leaves no timer behind. */
  function NumberInput(s: Nav, keyCode: int): (r: Nav)
    requires Inv(s)
    ensures Inv(r)
    ensures !IsDigitKey(keyCode) ==> r == s
    ensures IsDigitKey(keyCode) && |s.buffer| < MAX_DIGITS ==>
              r.buffer == s.buffer + [DigitOf(keyCode)] && r.timerPending
    ensures IsDigitKey(keyCode) && |s.buffer| >= MAX_DIGITS ==>
              r.buffer == s.buffer && !r.timerPending
    ensures r == s.(buffer := r.buffer, timerPending := r.timerPending)
  {
    if !IsDigitKey(keyCode) then s
    else
      var cancelled := s.(timerPending := false);
      if |s.buffer| < MAX_DIGITS then
        cancelled.(buffer := s.buffer + [DigitOf(keyCode)], timerPending := true)
      else cancelled
  }

  /** `jumpToChannelNumber()`: nothing with an empty buffer; otherwise the
      buffer is cleared, and the channel numbered by it (1-based) becomes the
      playing one when the number is between 1 and the list's size. */
  function Jump(s: Nav): (r: Nav)
    requires Inv(s) && !s.timerPending
    ensures Inv(r) && !r.timerPending
    ensures s.buffer == [] ==> r == s
    ensures s.buffer != [] ==> r.buffer == []
    ensures s.buffer != [] ==>
              var n := DecimalValue(s.buffer);
              if 1 <= n <= |s.allChannels| then
                && r.index == n - 1
                && r.channelId == s.allChannels[n - 1].id
                && r.channelUrl == s.allChannels[n - 1].url
                && r.channelName == s.allChannels[n - 1].name
                && r.nowPlaying == Some(PlaySource(s.allChannels[n - 1].url))
              else r == s.(buffer := [])
    ensures var n := DecimalValue(s.buffer);
            s.buffer != [] && 1 <= n <= |s.allChannels| ==>
              r == SwitchTo(s.(buffer := []), s.allChannels[n - 1], n - 1)
  {
    if s.buffer == [] then s
    else
      var n := DecimalValue(s.buffer);
      var cleared := s.(buffer := []);
      if 0 < n <= |s.allChannels| then SwitchTo(cleared, s.allChannels[n - 1], n - 1)
      else cleared
  }

  /** A buffer of zeros is cleared and switches nothing. */
  lemma ZerosNeverSwitch(s: Nav)
    requires Inv(s) && !s.timerPending
    requires forall i :: 0 <= i < |s.buffer| ==> s.buffer[i] == '0'
    ensures Jump(s) == s.(buffer := [])
  {
    DecimalValueZero(s.buffer);
  }

  /** Typing the digits of a channel number into an empty buffer and letting
      the timer fire plays the channel with that number. */
  lemma TypedNumberPlays(s: Nav, d: int)
    requires Inv(s) && s.buffer == [] && !s.timerPending
    requires 1 <= d <= 9 && d <= |s.allChannels|
    ensures var r := TimerFired(NumberInput(s, KEYCODE_0 + d));
            r.index == d - 1 && r.channelId == s.allChannels[d - 1].id && r.buffer == []
  {
    var t := NumberInput(s, KEYCODE_0 + d);
    assert t.buffer == [DigitOf(KEYCODE_0 + d)];
    assert DecimalValue(t.buffer) == d;
  }

  /** The posted callback runs `jumpToChannelNumber()`; with nothing posted
      there is nothing to run. */
  function TimerFired(s: Nav): (r: Nav)
    requires Inv(s)
    ensures Inv(r) && !r.timerPending
    ensures !s.timerPending ==> r == s
    ensures s.timerPending ==> r.buffer == [] && r == Jump(s.(timerPending := false))
  {
    if s.timerPending then Jump(s.(timerPending := false)) else s
  }

  /** `onKeyDown(keyCode)`, apart from the favourite flag, which lives in the
      channel table: up and down step, back finishes, digits are typed, and
      Enter or centre confirm a typed number at once. Enter or centre with no
      digits typed, and every other key, are passed on unchanged. */
  function KeyDown(s: Nav, keyCode: int): (r: (Nav, KeyResult))
    requires Inv(s)
    ensures Inv(r.0)
    ensures r.1 == PassedOn <==>
              || (IsConfirmKey(keyCode) && s.buffer == [])
              || !(keyCode in {KEYCODE_DPAD_UP, KEYCODE_DPAD_DOWN, KEYCODE_MENU, KEYCODE_BACK}
                   || IsDigitKey(keyCode) || IsConfirmKey(keyCode))
    ensures r.1 == PassedOn ==> r.0 == s
    ensures keyCode == KEYCODE_DPAD_UP ==> r.0 == StepRelative(s, -1)
    ensures keyCode == KEYCODE_DPAD_DOWN ==> r.0 == StepRelative(s, 1)
    ensures keyCode == KEYCODE_MENU ==> r.0 == s
    ensures keyCode == KEYCODE_BACK ==> r.0 == s.(finished := true)
    ensures IsDigitKey(keyCode) ==> r.0 == NumberInput(s, keyCode)
    ensures IsConfirmKey(keyCode) && s.buffer != [] ==>
              r.0 == Jump(s.(timerPending := false)) && r.0.buffer == [] && !r.0.timerPending
  {
    if keyCode == KEYCODE_DPAD_UP then (StepRelative(s, -1), Consumed)
    else if keyCode == KEYCODE_DPAD_DOWN then (StepRelative(s, 1), Consumed)
    else if keyCode == KEYCODE_MENU then (s, Consumed)
    else if keyCode == KEYCODE_BACK then (s.(finished := true), Consumed)
    else if IsDigitKey(keyCode) then (NumberInput(s, keyCode), Consumed)
    else if IsConfirmKey(keyCode) then
      if s.buffer != [] then (Jump(s.(timerPending := false)), Consumed) else (s, PassedOn)
    else (s, PassedOn)
  }

  /** `toggleFavorite()` on the channel table: with a playing channel that
      the table holds, its flag is set to the negation of the stored flag;
      otherwise the table is unchanged. */
  function FavoriteToggled(rows: seq<Channel>, channelId: int): (r: seq<Channel>)
    ensures channelId == NO_CHANNEL ==> r == rows
    ensures (forall c :: c in rows ==> c.id != channelId) ==> r == rows
    ensures channelId != NO_CHANNEL ==> forall c :: c in rows && c.id == channelId ==>
              r == SetFavorite(rows, channelId, !ChannelById(rows, channelId).value.isFavorite)
  {
    if channelId == NO_CHANNEL then rows
    else
      match ChannelById(rows, channelId)
      case None => rows
      case Some(c) => SetFavorite(rows, channelId, !c.isFavorite)
  }

  /** Pressing Menu twice restores the table. */
  lemma ToggleTwiceRestores(rows: seq<Channel>, channelId: int)
    requires DistinctKeys(rows, ChannelId)
    ensures FavoriteToggled(FavoriteToggled(rows, channelId), channelId) == rows
  {
    var once := FavoriteToggled(rows, channelId);
    if channelId != NO_CHANNEL && ChannelById(rows, channelId).Some? {
      var c := ChannelById(rows, channelId).value;
      var i :| 0 <= i < |rows| && rows[i] == c;
      assert once[i] == c.(isFavorite := !c.isFavorite);
      assert once[i] in once;
      assert DistinctKeys(once, ChannelId) by {
        assert forall k :: 0 <= k < |once| ==> once[k].id == rows[k].id;
      }
      assert ChannelById(once, channelId) == Some(once[i]);
      forall d | d in rows && d.id == channelId ensures d.isFavorite == c.isFavorite {
        assert d == c;
      }
      FavoriteRoundTrip(rows, channelId, c.isFavorite);
    }
  }

  // --- The activity ---------------------------------------------------------

  /** `PlayerActivity` with its navigation fields. The channel table it reads
      and writes is passed to the handlers that use it. */
  class PlayerActivity {
    var channelId: int
    var channelUrl: string
    var channelName: string
    var allChannels: seq<Channel>
    var currentChannelIndex: int
    var numberInputBuffer: string
    var timerPending: bool
    var nowPlaying: Option<MediaSource>
    var finished: bool

    ghost function State(): Nav
      reads this
    {
      Nav(channelId, channelUrl, channelName, allChannels, currentChannelIndex,
          numberInputBuffer, timerPending, nowPlaying, finished)
    }

    ghost predicate Valid()
      reads this
    {
      Inv(State())
    }

    /** `onCreate` with the intent's extras. */
    constructor (extraId: Option<int>, extraUrl: Option<string>, extraName: Option<string>)
      ensures Valid() && State() == Launch(extraId, extraUrl, extraName)
    {
      var url := extraUrl.GetOr("");
      channelId := extraId.GetOr(NO_CHANNEL);
      channelUrl := url;
      channelName := extraName.GetOr("");
      allChannels := [];
      currentChannelIndex := 0;
      numberInputBuffer := [];
      timerPending := false;
      finished := false;
      if Contains(url, HLS_MARKER) {
        nowPlaying := Some(Hls(url));
      } else {
        nowPlaying := None;
      }
    }

    /** The `loadChannelList` observer, run with each list the table delivers. */
    method LoadChannelList(channels: seq<Channel>)
      requires Valid()
      modifies this
      ensures Valid() && State() == Loaded(old(State()), channels)
    {
      allChannels := channels;
      currentChannelIndex := IndexOfFirst(channels, channelId);
      if currentChannelIndex == -1 {
        currentChannelIndex := 0;
      }
    }

    method PlayChannel(url: string)
      modifies this
      ensures State() == old(State()).(nowPlaying := Some(PlaySource(url)))
    {
      if Contains(url, HLS_MARKER) {
        nowPlaying := Some(Hls(url));
      } else {
        nowPlaying := Some(Progressive(url));
      }
    }

    method SwitchToChannel(channel: Channel, index: int)
      requires Valid() && 0 <= index < |allChannels|
      modifies this
      ensures Valid() && State() == SwitchTo(old(State()), channel, index)
    {
      currentChannelIndex := index;
      channelId := channel.id;
      channelUrl := channel.url;
      channelName := channel.name;
      PlayChannel(channel.url);
    }

    method ChangeChannelRelative(direction: int)
      requires Valid() && (direction == 1 || direction == -1)
      modifies this
      ensures Valid() && State() == StepRelative(old(State()), direction)
    {
      if |allChannels| == 0 {
        return;
      }
      currentChannelIndex := (currentChannelIndex + direction + |allChannels|) % |allChannels|;
      var target := allChannels[currentChannelIndex];
      SwitchToChannel(target, currentChannelIndex);
    }

    method CancelNumberInputTimer()
      modifies this
      ensures State() == old(State()).(timerPending := false)
    {
      timerPending := false;
    }

    method HandleNumberInput(keyCode: int)
      requires Valid()
      modifies this
      ensures Valid() && State() == NumberInput(old(State()), keyCode)
    {
      if !IsDigitKey(keyCode) {
        return;
      }
      var digit := DigitOf(keyCode);
      CancelNumberInputTimer();
      if |numberInputBuffer| < MAX_DIGITS {
        numberInputBuffer := numberInputBuffer + [digit];
        timerPending := true;
      }
    }

    method JumpToChannelNumber()
      requires Valid() && !timerPending
      modifies this
      ensures Valid() && State() == Jump(old(State()))
    {
      if numberInputBuffer == [] {
        return;
      }
      var channelNumber := DecimalValue(numberInputBuffer);
      numberInputBuffer := [];
      if 0 < channelNumber <= |allChannels| {
        var targetIndex := channelNumber - 1;
        SwitchToChannel(allChannels[targetIndex], targetIndex);
      }
    }

    /** The posted callback firing. */
    method TimerExpired()
      requires Valid()
      modifies this
      ensures Valid() && State() == TimerFired(old(State()))
    {
      if timerPending {
        timerPending := false;
        JumpToChannelNumber();
      }
    }

    method ToggleFavorite(db: ChannelDao)
      requires db.Valid()
      modifies db
      ensures db.Valid()
      ensures db.rows == FavoriteToggled(old(db.rows), channelId) && db.nextId == old(db.nextId)
    {
      if channelId != NO_CHANNEL {
        var channel := ChannelById(db.rows, channelId);
        if channel.Some? {
          db.UpdateFavorite(channelId, !channel.value.isFavorite);
        }
      }
    }

    method OnKeyDown(keyCode: int, db: ChannelDao) returns (result: KeyResult)
      requires Valid() && db.Valid()
      modifies this, db
      ensures Valid() && db.Valid()
      ensures (State(), result) == KeyDown(old(State()), keyCode)
      ensures db.nextId == old(db.nextId)
      ensures db.rows == (if keyCode == KEYCODE_MENU then FavoriteToggled(old(db.rows), old(channelId))
                          else old(db.rows))
    {
      if keyCode == KEYCODE_DPAD_UP {
        ChangeChannelRelative(-1);
        result := Consumed;
      } else if keyCode == KEYCODE_DPAD_DOWN {
        ChangeChannelRelative(1);
        result := Consumed;
      } else if keyCode == KEYCODE_MENU {
        ToggleFavorite(db);
        result := Consumed;
      } else if keyCode == KEYCODE_BACK {
        finished := true;
        result := Consumed;
      } else if IsDigitKey(keyCode) {
        HandleNumberInput(keyCode);
        result := Consumed;
      } else if IsConfirmKey(keyCode) {
        if numberInputBuffer != [] {
          CancelNumberInputTimer();
          JumpToChannelNumber();
          result := Consumed;
        } else {
          result := PassedOn;
        }
      } else {
        result := PassedOn;
      }
    }
  }
}
