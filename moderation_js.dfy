/** The record keeping of the JavaScript moderation bot (moderatorbot/main.js). It shares the
    capped buffer, role lists, warning format, delwarn guards, ban durations and starboard
    rule of module Moderation; it differs in what the log keeps (the message only), in
    how `warns` splits a warning, and in the status embed (last five warnings, no
    truncation, no error field). Times are `Date.now()` milliseconds or Unix seconds. */
module ModerationJs {
  import opened Common
  import opened Moderation

  // ---------------------------------------------------------------------------
  // `warning.split(' | ')` destructured into `[reason, timestamp]`

  /** The least start `j >= i` of an occurrence of `t` in `s`, or -1. */
  function FirstIndexFrom(s: string, t: string, i: nat): (r: int)
    decreases |s| - i
    ensures r == -1 || (i <= r && IsSubstringAt(s, t, r))
    ensures forall j :: i <= j && (r == -1 || j < r) ==> !IsSubstringAt(s, t, j)
  {
    if i + |t| > |s| then -1 else if IsSubstringAt(s, t, i) then i else FirstIndexFrom(s, t, i + 1)
  }

  /** The first two pieces of the split; the second is `undefined` (None) without a separator. */
  function JsSplitWarning(w: string): (r: (string, Option<string>))
    ensures r.1.None? ==> r.0 == w
    ensures !Contains(w, Separator) ==> r == (w, None)
    ensures Contains(w, Separator) ==> r.1.Some? && IsSubstringAt(w, Separator, |r.0|)
    ensures r.1.Some? ==> |r.0| + |Separator| + |r.1.value| <= |w| && w[..|r.0|] == r.0 && !Contains(r.0, Separator)
    ensures r.1.Some? ==> forall j :: 0 <= j < |r.0| ==> !IsSubstringAt(w, Separator, j)
    // The second piece runs from the first separator to the next one, or to the end.
    ensures r.1.Some? ==> var e := |r.0| + |Separator|; var n := e + |r.1.value|;
      && w[e..n] == r.1.value
      && (n == |w| || IsSubstringAt(w, Separator, n))
      && forall j :: e <= j < n ==> !IsSubstringAt(w, Separator, j)
  {
    var i := FirstIndexFrom(w, Separator, 0);
    if i < 0 then (w, None)
    else
      var j := FirstIndexFrom(w, Separator, i + |Separator|);
      assert !Contains(w[..i], Separator) by {
        forall k | 0 <= k <= i - |Separator| ensures !IsSubstringAt(w[..i], Separator, k) {
          assert !IsSubstringAt(w, Separator, k);
          assert w[..i][k..k + |Separator|] == w[k..k + |Separator|];
        }
      }
      (w[..i], Some(if j < 0 then w[i + |Separator|..] else w[i + |Separator|..j]))
  }

  predicate NoBar(s: string) {
    forall m :: 0 <= m < |s| ==> s[m] != '|'
  }

  /** A reason without a `|` comes back whole, and so does the stamp. */
  lemma JsSplitWithoutBar(reason: string, ts: nat)
    requires NoBar(reason)
    ensures JsSplitWarning(FormatWarning(reason, ts)) == (reason, Some(Stamp(ts)))
  {
    var w := FormatWarning(reason, ts);
    var st := Stamp(ts);
    var k := |reason|;
    StampHasNoBar(ts);
    assert w[k..k + 3] == Separator;
    assert IsSubstringAt(w, Separator, k);
    forall m | 0 <= m < |w| && m != k + 1 ensures w[m] != '|' {
      if m < k {
        assert w[m] == reason[m];
      } else if m >= k + 3 {
        assert w[m] == st[m - k - 3];
      }
    }
    forall j | 0 <= j <= |w| - 3 && j != k ensures !IsSubstringAt(w, Separator, j) {
      assert w[j..j + 3][1] == w[j + 1] != '|';
    }
    assert FirstIndexFrom(w, Separator, 0) == k;
    assert FirstIndexFrom(w, Separator, k + 3) == -1;
    assert w[..k] == reason;
    assert w[k + 3..] == st;
  }

  /** Unlike Python's `rsplit`, which gives back any reason whole, a reason holding " | " is
      cut at its first separator: the embed shows a proper prefix of it. */
  lemma JsSplitTruncatesReason(reason: string, ts: nat)
    requires Contains(reason, Separator)
    ensures RSplitOnce(FormatWarning(reason, ts), Separator) == Some((reason, Stamp(ts)))
    ensures var r := JsSplitWarning(FormatWarning(reason, ts));
      && r.1.Some?
      && |r.0| < |reason| && r.0 == reason[..|r.0|]
      && IsSubstringAt(reason, Separator, |r.0|)
      && !Contains(r.0, Separator)
  {
    WarningRoundTrip(reason, ts);
    var w := FormatWarning(reason, ts);
    var k :| 0 <= k <= |reason| - |Separator| && IsSubstringAt(reason, Separator, k);
    var r := JsSplitWarning(w);
    var p := |r.0|;
    assert IsSubstringAt(w, Separator, k) by {
      assert w[k..k + |Separator|] == reason[k..k + |Separator|];
    }
    assert Contains(w, Separator);
    assert p <= k;
    PrefixOfFormatted(reason, ts, p);
  }

  /** The first `p + 3` characters of a formatted warning, with `p + 3` within the reason. */
  lemma PrefixOfFormatted(reason: string, ts: nat, p: nat)
    requires p + |Separator| <= |reason|
    ensures FormatWarning(reason, ts)[..p] == reason[..p]
    ensures FormatWarning(reason, ts)[p..p + |Separator|] == reason[p..p + |Separator|]
  {
  }

  /** What the JS warnings embed shows for issued warnings whose reasons hold no `|`. */
  lemma JsWarnsShowIssued(ws: seq<Issued>)
    ensures forall i :: 0 <= i < |ws| && NoBar(ws[i].0) ==>
      JsSplitWarning(FormatAll(ws)[i]) == (ws[i].0, Some(Stamp(ws[i].1)))
  {
    forall i | 0 <= i < |ws| && NoBar(ws[i].0)
      ensures JsSplitWarning(FormatAll(ws)[i]) == (ws[i].0, Some(Stamp(ws[i].1)))
    {
      JsSplitWithoutBar(ws[i].0, ws[i].1);
    }
  }

  // ---------------------------------------------------------------------------
  // `ban`'s duration: a free string option, since the command declares no choices

  /** The value each duration choice is sent as. */
  function DurationValue(d: BanDuration): string {
    match d
    case OneDay => "1d"
    case SevenDays => "7d"
    case FourteenDays => "14d"
    case Permanent => "Permanent"
  }

  /** The choice a duration text names, or `None` for any other text. */
  function ParseBanDuration(s: string): (r: Option<BanDuration>)
    ensures r.None? ==> forall d :: DurationValue(d) != s
    ensures r.Some? ==> DurationValue(r.value) == s
  {
    if s == "1d" then Some(OneDay)
    else if s == "7d" then Some(SevenDays)
    else if s == "14d" then Some(FourteenDays)
    else if s == "Permanent" then Some(Permanent)
    else None
  }

  /** Every choice value is recognised as its own choice. */
  lemma ParseDurationValue(d: BanDuration)
    ensures ParseBanDuration(DurationValue(d)) == Some(d)
  {
  }

  // ---------------------------------------------------------------------------
  // serverstatus

  /** `serverstatus`'s status and its optional "Recent Warnings" field. */
  datatype JsStatusReport = JsStatusReport(status: ServerStatus, warnings: Option<string>)

  function JsReport(log: seq<string>): (r: JsStatusReport)
    ensures r.warnings.None? <==> forall e :: e in log ==> !HasWarning(e)
    ensures r.warnings.Some? ==> r.warnings.value == Join(LastN(Filter(log, HasWarning), 5), "\n")
    ensures (r.status == Errors <==> exists e :: e in log && HasError(e))
    ensures (r.status == Operational <==> forall e :: e in log ==> !HasError(e) && !HasWarning(e))
  {
    var errs := LastN(Filter(log, HasError), 100);
    var warns := LastN(Filter(log, HasWarning), 100);
    NonEmptyFilter(log, HasError);
    NonEmptyFilter(log, HasWarning);
    LastNLastN(Filter(log, HasError), 100, 5);
    LastNLastN(Filter(log, HasWarning), 100, 5);
    JsStatusReport(SelectStatus(errs, warns), if warns == [] then None else Some(Join(LastN(warns, 5), "\n")))
  }

  lemma NonEmptyFilter(log: seq<string>, p: string -> bool)
    ensures Filter(log, p) != [] <==> exists e :: e in log && p(e)
  {
    if Filter(log, p) != [] {
      assert Filter(log, p)[0] in Filter(log, p);
    }
  }

  lemma LastNLastN<T>(xs: seq<T>, n: nat, m: nat)
    requires 0 < m <= n
    ensures LastN(LastN(xs, n), m) == LastN(xs, m)
    ensures LastN(xs, n) == [] <==> xs == []
  {
  }

  // ---------------------------------------------------------------------------
  // Starboard posts (messageReactionAdd)

  /** The reacted message's attachments as the handler tells them apart: none, at least one
      whose URL ends in png, jpg, jpeg, gif or webp, or only other files. */
  datatype Attachments = NoAttachments | Images | OtherFiles

  /** A reaction event together with the attachments of the reacted message. */
  datatype StarEvent = StarEvent(reaction: Reaction, attachments: Attachments)

  function Reactions(events: seq<StarEvent>): (r: seq<Reaction>)
    ensures |r| == |events|
    ensures forall i :: 0 <= i < |events| ==> r[i] == events[i].reaction
  {
    seq(|events|, i requires 0 <= i < |events| => events[i].reaction)
  }

  /** As written: replays events and returns the final starred set and the ids whose embed is
      sent. A message with an image attachment is starred, but its embed only gets the image
      set and is never sent. */
  function StarboardAsWritten(starred: set<MessageId>, events: seq<StarEvent>): (r: (set<MessageId>, seq<MessageId>))
    decreases |events|
    ensures r.0 == StarboardAll(starred, Reactions(events)).0
  {
    if events == [] then (starred, [])
    else
      var e := events[0].reaction;
      assert Reactions(events)[1..] == Reactions(events[1..]);
      if NewlyStarred(starred, e) then
        var (s, sent) := StarboardAsWritten(starred + {e.messageId}, events[1..]);
        (s, if events[0].attachments == Images then sent else [e.messageId] + sent)
      else StarboardAsWritten(starred, events[1..])
  }

  /** As written, a message with an image is never sent to the starboard, whatever the
      reactions; once a reaction has starred it, no later one can send it either. */
  lemma {:induction false} ImageStarNeverSent(starred: set<MessageId>, events: seq<StarEvent>, m: MessageId)
    requires forall i :: 0 <= i < |events| && events[i].reaction.messageId == m ==> events[i].attachments == Images
    decreases |events|
    ensures m !in StarboardAsWritten(starred, events).1
  {
    if events != [] {
      var e := events[0].reaction;
      if NewlyStarred(starred, e) {
        ImageStarNeverSent(starred + {e.messageId}, events[1..], m);
      } else {
        ImageStarNeverSent(starred, events[1..], m);
      }
    }
  }

  /** Intended: the embed of every newly starred message is sent, with its image set when it
      has one. */
  function StarboardIntended(starred: set<MessageId>, events: seq<StarEvent>): (r: (set<MessageId>, seq<MessageId>))
    decreases |events|
    ensures r == StarboardAll(starred, Reactions(events))
  {
    if events == [] then (starred, [])
    else
      var e := events[0].reaction;
      assert Reactions(events)[1..] == Reactions(events[1..]);
      if NewlyStarred(starred, e) then
        var (s, sent) := StarboardIntended(starred + {e.messageId}, events[1..]);
        (s, [e.messageId] + sent)
      else StarboardIntended(starred, events[1..])
  }

  /** Intended: each message starred during the replay is sent exactly once, and every id sent
      was starred by it. */
  lemma StarboardSendsEveryStarOnce(starred: set<MessageId>, events: seq<StarEvent>)
    ensures var (s, sent) := StarboardIntended(starred, events);
      && NoDuplicates(sent)
      && s == starred + IdSet(sent)
      && forall m :: m in sent ==> m !in starred
  {
    StarboardRecordsOnce(starred, Reactions(events));
  }

  /** A picture starred by three reactions: as written it is starred and never sent; as
      intended it is sent once. */
  lemma StarredPictureIsLost()
    ensures var events := [StarEvent(Reaction(StarEmoji, 7, 3), Images), StarEvent(Reaction(StarEmoji, 7, 5), Images)];
      && StarboardAsWritten({}, events) == ({7}, [])
      && StarboardIntended({}, events) == ({7}, [7])
  {
    var events := [StarEvent(Reaction(StarEmoji, 7, 3), Images), StarEvent(Reaction(StarEmoji, 7, 5), Images)];
    var later := events[1..];
    assert !NewlyStarred({7}, later[0].reaction) && later[1..] == [];
    assert StarboardAsWritten({7}, later) == ({7}, []);
    assert StarboardIntended({7}, later) == ({7}, []);
    assert NewlyStarred({}, events[0].reaction) && {} + {7} == {7};
    assert StarboardAsWritten({}, events) == StarboardAsWritten({7}, later);
    assert StarboardIntended({}, events) == ({7}, [7] + StarboardIntended({7}, later).1);
    assert [7] + StarboardIntended({7}, later).1 == [7];
  }

  // ---------------------------------------------------------------------------
  // The bot's state

  const MillisPerDay := 86400000

  class JsModData {
    /** `info.message` of each logged entry; the level is not kept. */
    var logCapture: seq<string>
    var roles: map<MemberId, seq<RoleId>>
    /** Unban time in milliseconds. */
    var bans: map<MemberId, int>
    var warnings: map<MemberId, seq<string>>
    var notes: map<MemberId, seq<string>>
    var starred: set<MessageId>
    ghost var issued: map<MemberId, seq<Issued>>

    ghost predicate Valid()
      reads this
    {
      && |logCapture| <= LogCapacity
      && ModData.RolesDistinct(roles)
      && ModData.WarningsMatch(warnings, issued)
    }

    constructor ()
      ensures Valid()
      ensures logCapture == [] && roles == map[] && bans == map[] && warnings == map[] && notes == map[] && starred == {}
    {
      logCapture := [];
      roles := map[];
      bans := map[];
      warnings := map[];
      notes := map[];
      starred := {};
      issued := map[];
    }

    /** `LogHandler.log`: pushes the message and shifts the oldest out past 100. */
    method Log(message: string)
      requires Valid()
      modifies this
      ensures Valid()
      ensures logCapture == CappedAppend(old(logCapture), message)
      ensures roles == old(roles) && bans == old(bans) && warnings == old(warnings)
      ensures notes == old(notes) && starred == old(starred) && issued == old(issued)
    {
      logCapture := logCapture + [message];
      if |logCapture| > LogCapacity {
        logCapture := logCapture[1..];
      }
    }

    method RoleAdd(permitted: bool, member: MemberId, role: RoleId) returns (r: Outcome<ModError>)
      requires Valid()
      modifies this
      ensures Valid()
      ensures !permitted ==> r == Fail(NoPermission) && roles == old(roles)
      ensures permitted ==> (r == Pass &&
        roles == old(roles)[member := WithRole(if member in old(roles) then old(roles)[member] else [], role)])
      ensures logCapture == old(logCapture) && bans == old(bans) && warnings == old(warnings)
      ensures notes == old(notes) && starred == old(starred) && issued == old(issued)
    {
      if !permitted {
        return Fail(NoPermission);
      }
      var held := if member in roles then roles[member] else [];
      if role !in held {
        held := held + [role];
      }
      ModData.RolesDistinctUpdate(roles, member, held);
      roles := roles[member := held];
      r := Pass;
    }

    /** `ban` at `nowMs` with the free-text `duration`: a timed ban records its end `days`
        later; any text but the four choice values leaves `unbanTime` undefined, and the
        handler throws after the member is banned, before anything is recorded. */
    method Ban(permitted: bool, member: MemberId, duration: string, nowMs: int) returns (r: Outcome<ModError>)
      requires Valid()
      modifies this
      ensures Valid()
      ensures !permitted ==> r == Fail(NoPermission) && bans == old(bans)
      ensures permitted ==> match ParseBanDuration(duration)
        case None => r == Fail(UnbanTimeUndefined) && bans == old(bans)
        case Some(d) => r == Pass && bans == (match BanDays(d)
          case None => old(bans)
          case Some(days) => old(bans)[member := nowMs + days * MillisPerDay])
      ensures logCapture == old(logCapture) && roles == old(roles) && warnings == old(warnings)
      ensures notes == old(notes) && starred == old(starred) && issued == old(issued)
    {
      if !permitted {
        return Fail(NoPermission);
      }
      if duration != "Permanent" {
        var days := 0;
        if duration == "1d" {
          days := 1;
        } else if duration == "7d" {
          days := 7;
        } else if duration == "14d" {
          days := 14;
        } else {
          return Fail(UnbanTimeUndefined);
        }
        bans := bans[member := nowMs + days * MillisPerDay];
      }
      r := Pass;
    }

    /** `warn` at Unix time `ts` (`Math.floor(Date.now() / 1000)`). */
    method Warn(permitted: bool, member: MemberId, reason: string, ts: nat) returns (r: Outcome<ModError>)
      requires Valid()
      modifies this
      ensures Valid()
      ensures !permitted ==> r == Fail(NoPermission) && warnings == old(warnings) && issued == old(issued)
      ensures permitted ==> var before := if member in old(warnings) then old(warnings)[member] else [];
        && r == Pass
        && warnings == old(warnings)[member := before + [FormatWarning(reason, ts)]]
        && issued == old(issued)[member := (if member in old(issued) then old(issued)[member] else []) + [(reason, ts)]]
      ensures logCapture == old(logCapture) && roles == old(roles) && bans == old(bans)
      ensures notes == old(notes) && starred == old(starred)
    {
      if !permitted {
        return Fail(NoPermission);
      }
      ghost var before := if member in issued then issued[member] else [];
      var ws := if member in warnings then warnings[member] else [];
      FormatAllAppend(before, (reason, ts));
      ModData.WarningsMatchUpdate(warnings, issued, member, before + [(reason, ts)]);
      warnings := warnings[member := ws + [FormatWarning(reason, ts)]];
      issued := issued[member := before + [(reason, ts)]];
      r := Pass;
    }

    /** `warns`: each stored warning through `split(' | ')`. */
    function Warns(member: MemberId): (r: Result<seq<(string, Option<string>)>, ModError>)
      reads this
      requires Valid()
      ensures member !in issued || issued[member] == [] ==> r == Err(NoWarnings)
      ensures member in issued && issued[member] != [] ==>
        && r.Ok? && |r.value| == |issued[member]|
        && forall i :: 0 <= i < |issued[member]| && NoBar(issued[member][i].0) ==>
             r.value[i] == (issued[member][i].0, Some(Stamp(issued[member][i].1)))
    // Every entry, a reason holding " | " included, is the JS split of the issued warning.
    ensures member in issued && issued[member] != [] ==>
      forall i :: 0 <= i < |issued[member]| ==>
        r.value[i] == JsSplitWarning(FormatWarning(issued[member][i].0, issued[member][i].1))
    {
      if member !in warnings || warnings[member] == [] then Err(NoWarnings)
      else
        var ws := warnings[member];
        JsWarnsShowIssued(issued[member]);
        Ok(seq(|ws|, i requires 0 <= i < |ws| => JsSplitWarning(ws[i])))
    }

    method DelWarn(permitted: bool, member: MemberId, index: int) returns (r: Outcome<ModError>)
      requires Valid()
      modifies this
      ensures Valid()
      ensures !permitted ==> r == Fail(NoPermission) && warnings == old(warnings) && issued == old(issued)
      ensures permitted ==>
        var res := DelWarnRule(if member in old(warnings) then old(warnings)[member] else [], index);
        && r == (if res.Ok? then Pass else Fail(res.error))
        && warnings == (if res.Ok? then old(warnings)[member := res.value] else old(warnings))
        && issued == (if res.Ok? then old(issued)[member := RemoveAt(old(issued)[member], index - 1)] else old(issued))
      ensures logCapture == old(logCapture) && roles == old(roles) && bans == old(bans)
      ensures notes == old(notes) && starred == old(starred)
    {
      if !permitted {
        return Fail(NoPermission);
      }
      var ws := if member in warnings then warnings[member] else [];
      if |ws| == 0 {
        assert DelWarnRule(ws, index) == Err(NoWarnings);
        return Fail(NoWarnings);
      }
      if index <= 0 || index > |ws| {
        assert DelWarnRule(ws, index) == Err(InvalidIndex);
        return Fail(InvalidIndex);
      }
      ModData.WarningsMatchRemove(warnings, issued, member, index - 1);
      warnings := warnings[member := RemoveAt(ws, index - 1)];
      issued := issued[member := RemoveAt(issued[member], index - 1)];
      r := Pass;
    }

    /** `note` by the author whose tag is `tag`. */
    method Note(permitted: bool, member: MemberId, note: string, tag: string) returns (r: Outcome<ModError>)
      requires Valid()
      modifies this
      ensures Valid()
      ensures !permitted ==> r == Fail(NoPermission) && notes == old(notes)
      ensures permitted ==> (r == Pass &&
        notes == old(notes)[member := (if member in old(notes) then old(notes)[member] else []) + [note + " - " + tag]])
      ensures logCapture == old(logCapture) && roles == old(roles) && bans == old(bans)
      ensures warnings == old(warnings) && starred == old(starred) && issued == old(issued)
    {
      if !permitted {
        return Fail(NoPermission);
      }
      if member !in notes {
        notes := notes[member := []];
      }
      notes := notes[member := notes[member] + [note + " - " + tag]];
      r := Pass;
    }

    /** `messageReactionAdd`: returns whether the message is newly recorded as starred. */
    method StarReaction(e: Reaction) returns (recorded: bool)
      requires Valid()
      modifies this
      ensures Valid()
      ensures recorded == NewlyStarred(old(starred), e)
      ensures starred == if recorded then old(starred) + {e.messageId} else old(starred)
      ensures logCapture == old(logCapture) && roles == old(roles) && bans == old(bans)
      ensures warnings == old(warnings) && notes == old(notes) && issued == old(issued)
    {
      recorded := false;
      if e.emoji == StarEmoji {
        if e.messageId !in starred {
          if e.stars >= StarThreshold {
            starred := starred + {e.messageId};
            recorded := true;
          }
        }
      }
    }

    /** `serverstatus`. */
    function ServerStatusOf(permitted: bool): (r: Result<JsStatusReport, ModError>)
      reads this
      ensures !permitted ==> r == Err(NoPermission)
      ensures permitted ==> r.Ok?
      ensures permitted ==> (r.value.warnings.None? <==> forall e :: e in logCapture ==> !HasWarning(e))
      ensures permitted ==> (r.value.warnings.Some? ==> r.value.warnings.value == Join(LastN(Filter(logCapture, HasWarning), 5), "\n"))
      ensures permitted ==> (r.value.status == Errors <==> exists e :: e in logCapture && HasError(e))
      ensures permitted ==> (r.value.status == Warnings <==>
        (forall e :: e in logCapture ==> !HasError(e)) && exists e :: e in logCapture && HasWarning(e))
      ensures permitted ==> (r.value.status == Operational <==> forall e :: e in logCapture ==> !HasError(e) && !HasWarning(e))
    {
      if permitted then Ok(JsReport(logCapture)) else Err(NoPermission)
    }
  }
}
