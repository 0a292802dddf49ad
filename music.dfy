/** The queue pager and the role gate of the music bot (musicbot/main.py). A `QueueView`
    shows a snapshot of the song queue ten songs a page; its owner steps through the
    pages with a previous and a next button, each shown only where there is a page to go to. */
module Music {
  import opened Common

  type UserId = nat
  type RoleId = nat

  datatype Song = Song(title: string)

  // ---------------------------------------------------------------------------
  // Pages

  const ItemsPerPage := 10

  /** `math.ceil(len(songs) / 10)`. */
  function TotalPages(n: nat): nat {
    (n + ItemsPerPage - 1) / ItemsPerPage
  }

  /** `TotalPages` is the least page count that holds `n` songs. */
  lemma TotalPagesIsCeiling(n: nat)
    ensures var t := TotalPages(n);
      && (t == 0 <==> n == 0)
      && n <= t * ItemsPerPage
      && (t > 0 ==> (t - 1) * ItemsPerPage < n)
  {
  }

  /** `songs[start:end]` with Python's clamping at the end of the list. */
  function PageSlice(songs: seq<Song>, page: nat): (r: seq<Song>)
    ensures |r| <= ItemsPerPage
    ensures forall i :: 0 <= i < |r| ==> page * ItemsPerPage + i < |songs| && r[i] == songs[page * ItemsPerPage + i]
    ensures |r| == if page * ItemsPerPage >= |songs| then 0
                   else if |songs| - page * ItemsPerPage < ItemsPerPage then |songs| - page * ItemsPerPage
                   else ItemsPerPage
  {
    var start := page * ItemsPerPage;
    var end := start + ItemsPerPage;
    if start >= |songs| then [] else if end > |songs| then songs[start..] else songs[start..end]
  }

  // ---------------------------------------------------------------------------
  // Embed

  datatype Field = Field(name: string, value: string)
  datatype Embed = Embed(title: string, description: string, color: nat, fields: seq<Field>, footer: string)

  const QueueTitle := "Song Queue"
  const QueueDescription := "List of songs in the queue"
  const QueueColor := 0x808000
  const NowPlayingName := "**Currently Playing**"

  function Number(i: nat): string {
    "#" + NatToString(i)
  }

  function SongFields(songs: seq<Song>, first: nat): (r: seq<Field>)
    ensures |r| == |songs|
    ensures forall i :: 0 <= i < |r| ==> r[i] == Field(Number(first + i), songs[i].title)
    ensures forall i :: 0 <= i < |r| ==> r[i].name != NowPlayingName
  {
    var r := seq(|songs|, i requires 0 <= i < |songs| => Field(Number(first + i), songs[i].title));
    assert forall i :: 0 <= i < |r| ==> r[i].name[0] == '#' != NowPlayingName[0];
    r
  }

  /** `generate_embed(page)`: the now-playing field on the first page only, then the page's
      songs numbered from one, and the footer with the page count. */
  function GenerateEmbed(songs: seq<Song>, current: Option<Song>, totalPages: nat, page: nat): (r: Embed)
    ensures r.title == QueueTitle && r.description == QueueDescription && r.color == QueueColor
    ensures r.footer == "Page " + NatToString(page + 1) + "/" + NatToString(totalPages)
    ensures var head := if current.Some? && page == 0 then 1 else 0;
      && |r.fields| == head + |PageSlice(songs, page)|
      && |r.fields| <= ItemsPerPage + 1
      && (forall i :: head <= i < |r.fields| ==>
            var k := page * ItemsPerPage + (i - head);
            k < |songs| && r.fields[i] == Field(Number(k + 1), songs[k].title))
      && (forall i :: head <= i < |r.fields| ==> r.fields[i].name != NowPlayingName)
    ensures current.Some? && page == 0 ==> r.fields[0] == Field(NowPlayingName, current.value.title)
  {
    var pageSongs := PageSlice(songs, page);
    var nowPlaying := if current.Some? && page == 0 then [Field(NowPlayingName, current.value.title)] else [];
    var songFields := SongFields(pageSongs, page * ItemsPerPage + 1);
    Embed(QueueTitle, QueueDescription, QueueColor, nowPlaying + songFields,
          "Page " + NatToString(page + 1) + "/" + NatToString(totalPages))
  }

  /** "Currently Playing" appears exactly on the first page of a view with a current song. */
  lemma NowPlayingOnlyFirst(songs: seq<Song>, current: Option<Song>, totalPages: nat, page: nat)
    ensures var e := GenerateEmbed(songs, current, totalPages, page);
      (exists i :: 0 <= i < |e.fields| && e.fields[i].name == NowPlayingName) <==> current.Some? && page == 0
  {
    var e := GenerateEmbed(songs, current, totalPages, page);
    if current.Some? && page == 0 {
      assert e.fields[0].name == NowPlayingName;
    }
  }

  /** Song `k` sits at offset `k % 10` of page `k / 10`, a page below the page count. */
  lemma PageOfSong(k: nat, n: nat)
    requires k < n
    ensures k / ItemsPerPage < TotalPages(n)
    ensures (k / ItemsPerPage) * ItemsPerPage + k % ItemsPerPage == k
    ensures k % ItemsPerPage < ItemsPerPage
  {
    var t := TotalPages(n);
    assert n + 9 == t * 10 + (n + 9) % 10;
  }

  /** Every queued song is shown on exactly its page `k / 10`, a page the view can reach,
      under the number `k + 1`. */
  lemma EverySongOnItsPage(songs: seq<Song>, current: Option<Song>, k: nat)
    requires k < |songs|
    ensures var page := k / ItemsPerPage;
      && page < TotalPages(|songs|)
      && var e := GenerateEmbed(songs, current, TotalPages(|songs|), page);
         var head := if current.Some? && page == 0 then 1 else 0;
         head + k % ItemsPerPage < |e.fields|
         && e.fields[head + k % ItemsPerPage] == Field(Number(k + 1), songs[k].title)
  {
    var page := k / ItemsPerPage;
    var r := k % ItemsPerPage;
    PageOfSong(k, |songs|);
    var slice := PageSlice(songs, page);
    assert page * ItemsPerPage + r == k;
    assert r < |slice|;
    var e := GenerateEmbed(songs, current, TotalPages(|songs|), page);
    var head := if current.Some? && page == 0 then 1 else 0;
    var i := head + r;
    assert head <= i < |e.fields|;
  }

  // ---------------------------------------------------------------------------
  // Buttons

  datatype Button = Prev | Next

  /** The item list `update_buttons` rebuilds. */
  function Buttons(page: nat, totalPages: nat): (r: seq<Button>)
    ensures Prev in r <==> page > 0
    ensures Next in r <==> page < totalPages - 1
    ensures |r| <= 2 && NoDuplicates(r)
    ensures Prev in r && Next in r ==> r == [Prev, Next]
  {
    (if page > 0 then [Prev] else []) + (if page < totalPages - 1 then [Next] else [])
  }

  /** What a button press does: refused to anyone but the owner, a page turn with the
      embed `update_embed` sends, or nothing at the first or last page. */
  datatype Press = NotAllowed | Turned(embed: Embed) | AtBoundary

  class QueueView {
    const songs: seq<Song>
    const currentSong: Option<Song>
    const user: UserId
    const totalPages: nat
    var currentPage: nat
    var items: seq<Button>

    ghost predicate Valid()
      reads this
    {
      && totalPages == TotalPages(|songs|)
      && (currentPage == 0 || currentPage < totalPages)
      && items == Buttons(currentPage, totalPages)
    }

    constructor (songs: seq<Song>, currentSong: Option<Song>, user: UserId)
      ensures Valid()
      ensures this.songs == songs && this.currentSong == currentSong && this.user == user
      ensures currentPage == 0 && totalPages == TotalPages(|songs|)
      ensures |songs| > 0 ==> totalPages >= 1
      ensures Prev !in items && (Next in items <==> |songs| > ItemsPerPage)
    {
      this.songs := songs;
      this.currentSong := currentSong;
      this.user := user;
      totalPages := TotalPages(|songs|);
      currentPage := 0;
      new;
      UpdateButtons();
    }

    method UpdateButtons()
      modifies this
      ensures items == Buttons(currentPage, totalPages)
      ensures currentPage == old(currentPage)
    {
      items := [];
      if currentPage > 0 {
        items := items + [Prev];
      }
      if currentPage < totalPages - 1 {
        items := items + [Next];
      }
    }

    method PrevPage(presser: UserId) returns (r: Press)
      requires Valid()
      modifies this
      ensures Valid()
      ensures presser != user ==> r == NotAllowed && currentPage == old(currentPage)
      ensures presser == user && old(currentPage) > 0 ==>
        currentPage == old(currentPage) - 1 && r == Turned(GenerateEmbed(songs, currentSong, totalPages, currentPage))
      ensures presser == user && old(currentPage) == 0 ==> r == AtBoundary && currentPage == 0
      ensures presser != user || old(currentPage) == 0 ==> items == old(items)
    {
      if presser != user {
        return NotAllowed;
      }
      if currentPage > 0 {
        currentPage := currentPage - 1;
        UpdateButtons();
        return Turned(GenerateEmbed(songs, currentSong, totalPages, currentPage));
      }
      r := AtBoundary;
    }

    method NextPage(presser: UserId) returns (r: Press)
      requires Valid()
      modifies this
      ensures Valid()
      ensures presser != user ==> r == NotAllowed && currentPage == old(currentPage)
      ensures presser == user && old(currentPage) < totalPages - 1 ==>
        currentPage == old(currentPage) + 1 && r == Turned(GenerateEmbed(songs, currentSong, totalPages, currentPage))
      ensures presser == user && old(currentPage) >= totalPages - 1 ==> r == AtBoundary && currentPage == old(currentPage)
      ensures presser != user || old(currentPage) >= totalPages - 1 ==> items == old(items)
    {
      if presser != user {
        return NotAllowed;
      }
      if currentPage < totalPages - 1 {
        currentPage := currentPage + 1;
        UpdateButtons();
        return Turned(GenerateEmbed(songs, currentSong, totalPages, currentPage));
      }
      r := AtBoundary;
    }
  }

  /** The page a run of presses by the owner ends on, `true` meaning next. */
  function Walk(page: nat, totalPages: nat, presses: seq<bool>): nat
    decreases |presses|
  {
    if presses == [] then page
    else
      var p := if presses[0] then (if page < totalPages - 1 then page + 1 else page)
               else (if page > 0 then page - 1 else page);
      Walk(p, totalPages, presses[1..])
  }

  /** From any reachable page, any run of presses stays within the queue's pages, so the
      embed it sends always shows songs unless the page is the first. */
  lemma {:induction false} WalkStaysInRange(page: nat, totalPages: nat, presses: seq<bool>)
    requires page == 0 || page < totalPages
    decreases |presses|
    ensures var q := Walk(page, totalPages, presses); q == 0 || q < totalPages
  {
    if presses != [] {
      var p := if presses[0] then (if page < totalPages - 1 then page + 1 else page)
               else (if page > 0 then page - 1 else page);
      WalkStaysInRange(p, totalPages, presses[1..]);
    }
  }

  /** A page inside the queue always lists at least one song. */
  lemma ReachablePageHasSongs(songs: seq<Song>, page: nat)
    requires page < TotalPages(|songs|)
    ensures |PageSlice(songs, page)| >= 1
  {
  }

  // ---------------------------------------------------------------------------
  // Role gate

  const AllowedRoleId: RoleId := 1
  const BoosterRoleId: RoleId := 1

  /** `has_allowed_role`: playlist commands need the booster role, the others the allowed role. */
  function HasAllowedRole(roles: seq<RoleId>, playlist: bool): (r: bool)
    ensures playlist ==> (r <==> exists i :: 0 <= i < |roles| && roles[i] == BoosterRoleId)
    ensures !playlist ==> (r <==> exists i :: 0 <= i < |roles| && roles[i] == AllowedRoleId)
  {
    if playlist then BoosterRoleId in roles else AllowedRoleId in roles
  }

  /** With both role ids at their shipped value the playlist flag makes no difference. */
  lemma PlaylistFlagIsMoot(roles: seq<RoleId>)
    ensures HasAllowedRole(roles, true) == HasAllowedRole(roles, false)
  {
  }
}
