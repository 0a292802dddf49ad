/** The record keeping of the Python moderation bot (moderatorbot/main.py): the capped log
    buffer, per-member role-id lists, warnings with their `reason | <t:ts:R>` format,
    notes, ban and mute expiry times, the starboard set and the server-status summary.
    The JSON files are in-memory maps; clocks are parameters. */
module Moderation {
  import opened Common

  type MemberId = string
  type RoleId = int
  type MessageId = int

  datatype ModError =
    | NoPermission
    | NoWarnings
    | InvalidIndex
    | NegativeDuration
    | TooShort
    | TooLong
    | UnbanTimeUndefined  // JS `ban` with a duration outside the four choices throws

  // ---------------------------------------------------------------------------
  // Capped log buffer (LogHandler.emit)

  const LogCapacity := 100

  /** Appends `entry` and drops the oldest entry once the buffer holds more than 100. */
  function CappedAppend<T>(log: seq<T>, entry: T): (r: seq<T>)
    ensures |log| <= LogCapacity ==> |r| <= LogCapacity
    ensures r != [] && r[|r| - 1] == entry
    ensures |log| <= LogCapacity ==> r == LastN(log + [entry], LogCapacity)
  {
    var l := log + [entry];
    if |l| > LogCapacity then l[1..] else l
  }

  /** Entries emitted one after another. */
  function EmitAll<T>(log: seq<T>, entries: seq<T>): seq<T>
    decreases |entries|
  {
    if entries == [] then log else EmitAll(CappedAppend(log, entries[0]), entries[1..])
  }

  lemma LastNOfLastN<T>(xs: seq<T>, ys: seq<T>, n: nat)
    ensures LastN(LastN(xs, n) + ys, n) == LastN(xs + ys, n)
  {
    if |xs| > n {
      var a := LastN(xs, n) + ys;
      var b := xs + ys;
      assert LastN(xs, n) == xs[|xs| - n..];
      assert a == b[|xs| - n..];
      assert |LastN(a, n)| == |LastN(b, n)|;
      forall i | 0 <= i < |LastN(a, n)| ensures LastN(a, n)[i] == LastN(b, n)[i] {
        assert LastN(a, n)[i] == a[|a| - |LastN(a, n)| + i];
        assert LastN(b, n)[i] == b[|b| - |LastN(b, n)| + i];
      }
    }
  }

  /** However many entries are emitted, the buffer holds the newest 100 of everything
      it has seen, oldest first. */
  lemma {:induction false} EmitAllKeepsNewest<T>(log: seq<T>, entries: seq<T>)
    requires |log| <= LogCapacity
    decreases |entries|
    ensures EmitAll(log, entries) == LastN(log + entries, LogCapacity)
    ensures |EmitAll(log, entries)| <= LogCapacity
  {
    if entries == [] {
      assert log + entries == log;
    } else {
      var next := CappedAppend(log, entries[0]);
      EmitAllKeepsNewest(next, entries[1..]);
      LastNOfLastN(log + [entries[0]], entries[1..], LogCapacity);
      assert log + [entries[0]] + entries[1..] == log + entries;
    }
  }

  // ---------------------------------------------------------------------------
  // Role-id lists (roleadd)

  /** Appends `role` unless the list already holds it. */
  function WithRole(roles: seq<RoleId>, role: RoleId): (r: seq<RoleId>)
    ensures role in r
    ensures forall x :: x in r <==> x in roles || x == role
    ensures NoDuplicates(roles) ==> NoDuplicates(r)
    ensures |roles| <= |r| && r[..|roles|] == roles
  {
    if role in roles then roles else roles + [role]
  }

  lemma WithRoleIdempotent(roles: seq<RoleId>, role: RoleId)
    ensures WithRole(WithRole(roles, role), role) == WithRole(roles, role)
  {
  }

  // ---------------------------------------------------------------------------
  // Warnings: "{reason} | <t:{ts}:R>" and its parsing

  const Separator := " | "

  /** Discord's relative-time markup for a Unix timestamp. */
  function Stamp(ts: nat): string {
    "<t:" + NatToString(ts) + ":R>"
  }

  function FormatWarning(reason: string, ts: nat): string {
    reason + Separator + Stamp(ts)
  }

  /** The greatest start `j <= i` of an occurrence of `t` in `s`, or -1. */
  function LastIndexFrom(s: string, t: string, i: int): (r: int)
    decreases i + 1
    ensures r == -1 || (0 <= r <= i && IsSubstringAt(s, t, r))
    ensures forall j :: r < j <= i ==> !IsSubstringAt(s, t, j)
  {
    if i < 0 then -1 else if IsSubstringAt(s, t, i) then i else LastIndexFrom(s, t, i - 1)
  }

  /** Python `s.rsplit(sep, 1)` unpacked into two names: `None` where that raises. */
  function RSplitOnce(s: string, sep: string): (r: Option<(string, string)>)
    ensures r.None? <==> !Contains(s, sep)
    ensures r.Some? ==> s == r.value.0 + sep + r.value.1
    ensures r.Some? ==> forall j :: |r.value.0| < j <= |s| - |sep| ==> !IsSubstringAt(s, sep, j)
  {
    var i := LastIndexFrom(s, sep, |s| - |sep|);
    if i < 0 then None else Some((s[..i], s[i + |sep|..]))
  }

  lemma {:induction false} LastIndexFind(s: string, t: string, i: int, k: int)
    requires 0 <= k <= i && IsSubstringAt(s, t, k)
    requires forall j :: k < j <= i ==> !IsSubstringAt(s, t, j)
    decreases i - k
    ensures LastIndexFrom(s, t, i) == k
  {
    if i > k {
      LastIndexFind(s, t, i - 1, k);
    }
  }

  lemma StampHasNoBar(ts: nat)
    ensures |Stamp(ts)| >= 6 && Stamp(ts)[0] == '<'
    ensures forall m :: 0 <= m < |Stamp(ts)| ==> Stamp(ts)[m] != '|'
  {
    var d := NatToString(ts);
    var st := Stamp(ts);
    forall m | 0 <= m < |st| ensures st[m] != '|' {
      if 3 <= m < 3 + |d| {
        assert st[m] == d[m - 3];
      }
    }
  }

  /** `rsplit(' | ', 1)` gives back the stored reason and stamp, whatever the reason holds. */
  lemma WarningRoundTrip(reason: string, ts: nat)
    ensures RSplitOnce(FormatWarning(reason, ts), Separator) == Some((reason, Stamp(ts)))
  {
    var w := FormatWarning(reason, ts);
    var st := Stamp(ts);
    var k := |reason|;
    StampHasNoBar(ts);
    assert w[k..k + 3] == Separator;
    forall m | k + 2 <= m < |w| ensures w[m] != '|' {
      if m >= k + 3 {
        assert w[m] == st[m - k - 3];
      }
    }
    forall j | k < j <= |w| - 3 ensures !IsSubstringAt(w, Separator, j) {
      assert w[j..j + 3][1] == w[j + 1] != '|';
    }
    LastIndexFind(w, Separator, |w| - 3, k);
    assert w[..k] == reason;
    assert w[k + 3..] == st;
  }

  /** The warnings embed's reason and stamp for each stored warning; `None` where one
      of them does not split, so that `warns` raises. */
  function ParseAll(ws: seq<string>): Option<seq<(string, string)>> {
    if ws == [] then Some([])
    else
      match (RSplitOnce(ws[0], Separator), ParseAll(ws[1..]))
      case (Some(p), Some(rest)) => Some([p] + rest)
      case _ => None
  }

  /** An issued warning: the reason and the Unix timestamp of the `warn` call. */
  type Issued = (string, nat)

  function FormatAll(ws: seq<Issued>): (r: seq<string>)
    ensures |r| == |ws|
    ensures forall i :: 0 <= i < |ws| ==> r[i] == FormatWarning(ws[i].0, ws[i].1)
  {
    seq(|ws|, i requires 0 <= i < |ws| => FormatWarning(ws[i].0, ws[i].1))
  }

  /** What the warnings embed shows for issued warnings. */
  function Displayed(ws: seq<Issued>): (r: seq<(string, string)>)
    ensures |r| == |ws|
    ensures forall i :: 0 <= i < |ws| ==> r[i] == (ws[i].0, Stamp(ws[i].1))
  {
    seq(|ws|, i requires 0 <= i < |ws| => (ws[i].0, Stamp(ws[i].1)))
  }

  lemma {:induction false} ParseAllFormatted(ws: seq<Issued>)
    ensures ParseAll(FormatAll(ws)) == Some(Displayed(ws))
  {
    if ws != [] {
      WarningRoundTrip(ws[0].0, ws[0].1);
      ParseAllFormatted(ws[1..]);
      assert FormatAll(ws)[1..] == FormatAll(ws[1..]);
      assert Displayed(ws) == [Displayed(ws)[0]] + Displayed(ws[1..]);
    }
  }

  /** `list.pop(i)` / `splice(i, 1)`: every other element keeps its place in order. */
  function RemoveAt<T>(s: seq<T>, i: nat): (r: seq<T>)
    requires i < |s|
    ensures |r| == |s| - 1
    ensures forall j :: 0 <= j < i ==> r[j] == s[j]
    ensures forall j :: i <= j < |r| ==> r[j] == s[j + 1]
  {
    s[..i] + s[i + 1..]
  }

  /** `pop(i)` loses the one element at `i` and nothing else. */
  lemma RemoveAtMultiset<T>(s: seq<T>, i: nat)
    requires i < |s|
    ensures multiset(RemoveAt(s, i)) + multiset{s[i]} == multiset(s)
  {
    assert s == s[..i] + [s[i]] + s[i + 1..];
  }

  lemma FormatAllRemoveAt(ws: seq<Issued>, i: nat)
    requires i < |ws|
    ensures FormatAll(RemoveAt(ws, i)) == RemoveAt(FormatAll(ws), i)
  {
  }

  lemma FormatAllAppend(ws: seq<Issued>, w: Issued)
    ensures FormatAll(ws + [w]) == FormatAll(ws) + [FormatWarning(w.0, w.1)]
  {
  }

  /** `delwarn`'s two guards on a member's list and the 1-based index. */
  function DelWarnRule(ws: seq<string>, index: int): (r: Result<seq<string>, ModError>)
    ensures ws == [] ==> r == Err(NoWarnings)
    ensures r.Ok? <==> ws != [] && 1 <= index <= |ws|
    ensures r.Ok? ==> r.value == RemoveAt(ws, index - 1)
  {
    if ws == [] then Err(NoWarnings)
    else if index <= 0 || index > |ws| then Err(InvalidIndex)
    else Ok(RemoveAt(ws, index - 1))
  }

  // ---------------------------------------------------------------------------
  // Mute and ban durations

  const MinMuteMinutes := 5
  const MaxMuteMinutes := 30 * 24 * 60
  const DefaultMuteMinutes := 15

  /** `mute`'s validation, in whole minutes. */
  function MuteMinutes(days: int, hours: int, minutes: int): (r: Result<int, ModError>)
    ensures days < 0 || hours < 0 || minutes < 0 ==> r == Err(NegativeDuration)
    ensures days == 0 && hours == 0 && minutes == 0 ==> r == Ok(DefaultMuteMinutes)
    ensures r.Ok? <==>
      days >= 0 && hours >= 0 && minutes >= 0 &&
      ((days == 0 && hours == 0 && minutes == 0) || MinMuteMinutes <= days * 1440 + hours * 60 + minutes <= MaxMuteMinutes)
    ensures r.Ok? ==> MinMuteMinutes <= r.value <= MaxMuteMinutes
    ensures r.Ok? && (days != 0 || hours != 0 || minutes != 0) ==> r.value == days * 1440 + hours * 60 + minutes
  {
    if days < 0 || hours < 0 || minutes < 0 then Err(NegativeDuration)
    else
      var m := if days == 0 && hours == 0 && minutes == 0 then DefaultMuteMinutes else minutes;
      var total := days * 1440 + hours * 60 + m;
      if total < MinMuteMinutes then Err(TooShort)
      else if total > MaxMuteMinutes then Err(TooLong)
      else Ok(total)
  }

  /** Both bounds are inclusive. */
  lemma MuteBoundsInclusive()
    ensures MuteMinutes(0, 0, 5) == Ok(5) && MuteMinutes(30, 0, 0) == Ok(43200)
    ensures MuteMinutes(0, 0, 4) == Err(TooShort) && MuteMinutes(30, 0, 1) == Err(TooLong)
    ensures MuteMinutes(0, 0, 0) == Ok(15) && MuteMinutes(1, -1, 0) == Err(NegativeDuration)
  {
  }

  /** The `duration` choices of `ban`. */
  datatype BanDuration = OneDay | SevenDays | FourteenDays | Permanent

  /** Days until the unban, or `None` for a permanent ban. */
  function BanDays(d: BanDuration): (r: Option<nat>)
    ensures r.None? <==> d == Permanent
    ensures r.Some? ==> r.value in {1, 7, 14}
  {
    match d
    case OneDay => Some(1)
    case SevenDays => Some(7)
    case FourteenDays => Some(14)
    case Permanent => None
  }

  const SecondsPerDay := 86400

  // ---------------------------------------------------------------------------
  // Starboard (on_raw_reaction_add)

  const StarEmoji := "\U{2B50}"
  const StarThreshold := 3

  /** A reaction event: the emoji, the message and its star count (0 without a star). */
  datatype Reaction = Reaction(emoji: string, messageId: MessageId, stars: nat)

  predicate NewlyStarred(starred: set<MessageId>, e: Reaction) {
    e.emoji == StarEmoji && e.messageId !in starred && e.stars >= StarThreshold
  }

  function IdSet(s: seq<MessageId>): set<MessageId> {
    set m | m in s
  }

  /** Replays reaction events; returns the final set and the ids newly recorded as starred, in order. */
  function StarboardAll(starred: set<MessageId>, events: seq<Reaction>): (set<MessageId>, seq<MessageId>)
    decreases |events|
  {
    if events == [] then (starred, [])
    else if NewlyStarred(starred, events[0]) then
      var (s, added) := StarboardAll(starred + {events[0].messageId}, events[1..]);
      (s, [events[0].messageId] + added)
    else StarboardAll(starred, events[1..])
  }

  /** Each message is recorded as starred at most once, never one already starred, and only on a
      star event with at least three stars. */
  lemma {:induction false} StarboardRecordsOnce(starred: set<MessageId>, events: seq<Reaction>)
    decreases |events|
    ensures var (s, added) := StarboardAll(starred, events);
      && NoDuplicates(added)
      && s == starred + IdSet(added)
      && (forall m :: m in added ==> m !in starred)
      && (forall m :: m in added ==> exists e :: e in events && e.messageId == m && e.emoji == StarEmoji && e.stars >= StarThreshold)
  {
    if events != [] {
      var e := events[0];
      if NewlyStarred(starred, e) {
        StarboardRecordsOnce(starred + {e.messageId}, events[1..]);
        var (s, rest) := StarboardAll(starred + {e.messageId}, events[1..]);
        assert StarboardAll(starred, events) == (s, [e.messageId] + rest);
        assert IdSet([e.messageId] + rest) == {e.messageId} + IdSet(rest);
        forall m | m in [e.messageId] + rest
          ensures exists e' :: e' in events && e'.messageId == m && e'.emoji == StarEmoji && e'.stars >= StarThreshold
        {
          if m == e.messageId {
            assert e in events;
          } else {
            assert m in rest;
            var e' :| e' in events[1..] && e'.messageId == m && e'.emoji == StarEmoji && e'.stars >= StarThreshold;
            assert e' in events;
          }
        }
      } else {
        StarboardRecordsOnce(starred, events[1..]);
        var (s, rest) := StarboardAll(starred, events[1..]);
        forall m | m in rest
          ensures exists e' :: e' in events && e'.messageId == m && e'.emoji == StarEmoji && e'.stars >= StarThreshold
        {
          var e' :| e' in events[1..] && e'.messageId == m && e'.emoji == StarEmoji && e'.stars >= StarThreshold;
          assert e' in events;
        }
      }
    }
  }

  // ---------------------------------------------------------------------------
  // Server status

  datatype ServerStatus = Errors | Warnings | Operational

  datatype StatusReport = StatusReport(status: ServerStatus, warnings: string, errors: string)

  const FieldLimit := 1024

  /** An embed field value cut to 1021 characters plus "..." when it is too long. */
  function Truncate(s: string): (r: string)
    ensures |r| <= FieldLimit
    ensures |s| <= FieldLimit ==> r == s
    ensures |s| > FieldLimit ==> |r| == FieldLimit && r[..FieldLimit - 3] == s[..FieldLimit - 3] && r[FieldLimit - 3..] == "..."
  {
    if |s| > FieldLimit then s[..FieldLimit - 3] + "..." else s
  }

  /** The first `n` elements (Python `xs[:n]`). */
  function FirstN<T>(xs: seq<T>, n: nat): (r: seq<T>)
    ensures |r| == if |xs| < n then |xs| else n
    ensures r == xs[..|r|]
  {
    if |xs| <= n then xs else xs[..n]
  }

  function HasError(entry: string): bool {
    Contains(entry, "ERROR")
  }

  function HasWarning(entry: string): bool {
    Contains(entry, "WARNING")
  }

  function SelectStatus<T>(errors: seq<T>, warnings: seq<T>): ServerStatus {
    if errors != [] then Errors else if warnings != [] then Warnings else Operational
  }

  /** The status line in terms of the log itself. */
  lemma StatusMeaning(log: seq<string>)
    ensures var s := SelectStatus(FirstN(Filter(log, HasError), 100), FirstN(Filter(log, HasWarning), 100));
      && (s == Errors <==> exists e :: e in log && HasError(e))
      && (s == Warnings <==> (forall e :: e in log ==> !HasError(e)) && exists e :: e in log && HasWarning(e))
      && (s == Operational <==> forall e :: e in log ==> !HasError(e) && !HasWarning(e))
  {
    var errs := Filter(log, HasError);
    var warns := Filter(log, HasWarning);
    if errs != [] {
      assert errs[0] in errs;
    }
    if warns != [] {
      assert warns[0] in warns;
    }
  }

  /** One text field: the last five matching entries joined by newlines, truncated. */
  function RecentText(matching: seq<string>, none: string): (r: string)
    ensures |r| <= FieldLimit || r == none
    ensures matching == [] ==> r == none
  {
    if matching == [] then none else Truncate(Join(LastN(matching, 5), "\n"))
  }

  /** `serverstatus`'s embed contents. */
  function Report(log: seq<string>): (r: StatusReport)
    ensures |r.warnings| <= FieldLimit && |r.errors| <= FieldLimit
  {
    var errs := FirstN(Filter(log, HasError), 100);
    var warns := FirstN(Filter(log, HasWarning), 100);
    StatusReport(SelectStatus(errs, warns), RecentText(warns, "No recent warnings"), RecentText(errs, "No recent errors"))
  }

  // ---------------------------------------------------------------------------
  // The bot's state

  class ModData {
    var logCapture: seq<string>
    var roles: map<MemberId, seq<RoleId>>
    /** Unban time in Unix seconds. */
    var bans: map<MemberId, int>
    /** Unmute time in Unix seconds. */
    var mutes: map<MemberId, int>
    var warnings: map<MemberId, seq<string>>
    var notes: map<MemberId, seq<string>>
    var starred: set<MessageId>
    /** The reason and time of every stored warning. */
    ghost var issued: map<MemberId, seq<Issued>>

    ghost predicate Valid()
      reads this
    {
      && |logCapture| <= LogCapacity
      && RolesDistinct(roles)
      && WarningsMatch(warnings, issued)
    }

    /** No member's role list holds a role twice. */
    static ghost predicate RolesDistinct(roles: map<MemberId, seq<RoleId>>) {
      forall m :: m in roles ==> NoDuplicates(roles[m])
    }

    static lemma RolesDistinctUpdate(roles: map<MemberId, seq<RoleId>>, member: MemberId, held: seq<RoleId>)
      requires RolesDistinct(roles) && NoDuplicates(held)
      ensures RolesDistinct(roles[member := held])
    {
    }

    /** Every stored warning string is the formatted form of an issued warning. */
    static ghost predicate WarningsMatch(warnings: map<MemberId, seq<string>>, issued: map<MemberId, seq<Issued>>) {
      warnings.Keys == issued.Keys && forall m :: m in warnings ==> warnings[m] == FormatAll(issued[m])
    }

    static lemma WarningsMatchUpdate(warnings: map<MemberId, seq<string>>, issued: map<MemberId, seq<Issued>>,
                                     member: MemberId, ws: seq<Issued>)
      requires WarningsMatch(warnings, issued)
      ensures WarningsMatch(warnings[member := FormatAll(ws)], issued[member := ws])
    {
    }

    /** Removing the `i`-th warning from both views of a member's list keeps them matched. */
    static lemma WarningsMatchRemove(warnings: map<MemberId, seq<string>>, issued: map<MemberId, seq<Issued>>,
                                     member: MemberId, i: nat)
      requires WarningsMatch(warnings, issued) && member in warnings && i < |warnings[member]|
      ensures member in issued && i < |issued[member]|
      ensures WarningsMatch(warnings[member := RemoveAt(warnings[member], i)],
                            issued[member := RemoveAt(issued[member], i)])
    {
      FormatAllRemoveAt(issued[member], i);
      WarningsMatchUpdate(warnings, issued, member, RemoveAt(issued[member], i));
    }

    constructor ()
      ensures Valid()
      ensures logCapture == [] && roles == map[] && bans == map[] && mutes == map[]
      ensures warnings == map[] && notes == map[] && starred == {}
    {
      logCapture := [];
      roles := map[];
      bans := map[];
      mutes := map[];
      warnings := map[];
      notes := map[];
      starred := {};
      issued := map[];
    }

    /** `LogHandler.emit` with the `%(levelname)s: %(message)s` formatter. */
    method Emit(level: string, message: string)
      requires Valid()
      modifies this
      ensures Valid()
      ensures logCapture == CappedAppend(old(logCapture), level + ": " + message)
      ensures roles == old(roles) && bans == old(bans) && mutes == old(mutes)
      ensures warnings == old(warnings) && notes == old(notes) && starred == old(starred) && issued == old(issued)
    {
      logCapture := logCapture + [level + ": " + message];
      if |logCapture| > LogCapacity {
        logCapture := logCapture[1..];
      }
    }

    method RoleAdd(permitted: bool, member: MemberId, role: RoleId) returns (r: Outcome<ModError>)
      requires Valid()
      modifies this
      ensures Valid()
      ensures !permitted ==> r == Fail(NoPermission) && roles == old(roles)
      ensures permitted ==> (r == Pass &&
        roles == old(roles)[member := WithRole(if member in old(roles) then old(roles)[member] else [], role)])
      ensures logCapture == old(logCapture) && bans == old(bans) && mutes == old(mutes)
      ensures warnings == old(warnings) && notes == old(notes) && starred == old(starred) && issued == old(issued)
    {
      if !permitted {
        return Fail(NoPermission);
      }
      var held := if member in roles then roles[member] else [];
      if role !in held {
        held := held + [role];
      }
      RolesDistinctUpdate(roles, member, held);
      roles := roles[member := held];
      r := Pass;
    }

    /** `ban` at Unix time `now`: a timed ban records when it ends. */
    method Ban(permitted: bool, member: MemberId, duration: BanDuration, now: int) returns (r: Outcome<ModError>)
      requires Valid()
      modifies this
      ensures Valid()
      ensures !permitted ==> r == Fail(NoPermission) && bans == old(bans)
      ensures permitted ==> (r == Pass &&
        bans == match BanDays(duration)
                case None => old(bans)
                case Some(d) => old(bans)[member := now + d * SecondsPerDay])
      ensures logCapture == old(logCapture) && roles == old(roles) && mutes == old(mutes)
      ensures warnings == old(warnings) && notes == old(notes) && starred == old(starred) && issued == old(issued)
    {
      if !permitted {
        return Fail(NoPermission);
      }
      if duration != Permanent {
        var days := if duration == OneDay then 1 else if duration == SevenDays then 7 else 14;
        bans := bans[member := now + days * SecondsPerDay];
      }
      r := Pass;
    }

    /** `warn` at Unix time `ts`. */
    method Warn(permitted: bool, member: MemberId, reason: string, ts: nat) returns (r: Outcome<ModError>)
      requires Valid()
      modifies this
      ensures Valid()
      ensures !permitted ==> r == Fail(NoPermission) && warnings == old(warnings) && issued == old(issued)
      ensures permitted ==> var before := if member in old(warnings) then old(warnings)[member] else [];
        && r == Pass
        && warnings == old(warnings)[member := before + [FormatWarning(reason, ts)]]
        && issued == old(issued)[member := (if member in old(issued) then old(issued)[member] else []) + [(reason, ts)]]
      ensures logCapture == old(logCapture) && roles == old(roles) && bans == old(bans) && mutes == old(mutes)
      ensures notes == old(notes) && starred == old(starred)
    {
      if !permitted {
        return Fail(NoPermission);
      }
      ghost var before := if member in issued then issued[member] else [];
      var ws := if member in warnings then warnings[member] else [];
      FormatAllAppend(before, (reason, ts));
      WarningsMatchUpdate(warnings, issued, member, before + [(reason, ts)]);
      warnings := warnings[member := ws + [FormatWarning(reason, ts)]];
      issued := issued[member := before + [(reason, ts)]];
      r := Pass;
    }

    /** `warns`: each stored warning split back into its reason and stamp. */
    function Warns(member: MemberId): (r: Result<seq<(string, string)>, ModError>)
      reads this
      requires Valid()
      ensures member !in issued || issued[member] == [] ==> r == Err(NoWarnings)
      ensures member in issued && issued[member] != [] ==> r == Ok(Displayed(issued[member]))
    {
      if member !in warnings || warnings[member] == [] then Err(NoWarnings)
      else
        ParseAllFormatted(issued[member]);
        Ok(ParseAll(warnings[member]).value)
    }

    method DelWarn(permitted: bool, member: MemberId, index: int) returns (r: Outcome<ModError>)
      requires Valid()
      modifies this
      ensures Valid()
      ensures !permitted ==> r == Fail(NoPermission) && warnings == old(warnings) && issued == old(issued)
      ensures permitted ==>
        var res := DelWarnRule(if member in old(warnings) then old(warnings)[member] else [], index);
        && r == (if res.Ok? then Pass else Fail(res.error))
        && warnings == (if res.Ok? then old(warnings)[member := res.value] else old(warnings))
        && issued == (if res.Ok? then old(issued)[member := RemoveAt(old(issued)[member], index - 1)] else old(issued))
      ensures logCapture == old(logCapture) && roles == old(roles) && bans == old(bans) && mutes == old(mutes)
      ensures notes == old(notes) && starred == old(starred)
    {
      if !permitted {
        return Fail(NoPermission);
      }
      var ws := if member in warnings then warnings[member] else [];
      if |ws| == 0 {
        assert DelWarnRule(ws, index) == Err(NoWarnings);
        return Fail(NoWarnings);
      }
      if index <= 0 || index > |ws| {
        assert DelWarnRule(ws, index) == Err(InvalidIndex);
        return Fail(InvalidIndex);
      }
      WarningsMatchRemove(warnings, issued, member, index - 1);
      warnings := warnings[member := RemoveAt(ws, index - 1)];
      issued := issued[member := RemoveAt(issued[member], index - 1)];
      r := Pass;
    }

    /** `mute` at Unix time `now`: records when the timeout ends. */
    method Mute(permitted: bool, member: MemberId, days: int, hours: int, minutes: int, now: int)
      returns (r: Outcome<ModError>)
      requires Valid()
      modifies this
      ensures Valid()
      ensures !permitted ==> r == Fail(NoPermission) && mutes == old(mutes)
      ensures permitted ==> var res := MuteMinutes(days, hours, minutes);
        && r == (if res.Ok? then Pass else Fail(res.error))
        && mutes == if res.Ok? then old(mutes)[member := now + res.value * 60] else old(mutes)
      ensures logCapture == old(logCapture) && roles == old(roles) && bans == old(bans)
      ensures warnings == old(warnings) && notes == old(notes) && starred == old(starred) && issued == old(issued)
    {
      if !permitted {
        return Fail(NoPermission);
      }
      if days < 0 || hours < 0 || minutes < 0 {
        return Fail(NegativeDuration);
      }
      var m := minutes;
      if days == 0 && hours == 0 && minutes == 0 {
        m := DefaultMuteMinutes;
      }
      var total := days * 1440 + hours * 60 + m;
      if total < MinMuteMinutes {
        return Fail(TooShort);
      } else if total > MaxMuteMinutes {
        return Fail(TooLong);
      }
      mutes := mutes[member := now + total * 60];
      r := Pass;
    }

    /** `note` by the author `name#discriminator`. */
    method Note(permitted: bool, member: MemberId, note: string, name: string, discriminator: string)
      returns (r: Outcome<ModError>)
      requires Valid()
      modifies this
      ensures Valid()
      ensures !permitted ==> r == Fail(NoPermission) && notes == old(notes)
      ensures permitted ==> (r == Pass &&
        notes == old(notes)[member := (if member in old(notes) then old(notes)[member] else []) + [note + " - " + name + "#" + discriminator]])
      ensures logCapture == old(logCapture) && roles == old(roles) && bans == old(bans) && mutes == old(mutes)
      ensures warnings == old(warnings) && starred == old(starred) && issued == old(issued)
    {
      if !permitted {
        return Fail(NoPermission);
      }
      if member !in notes {
        notes := notes[member := []];
      }
      notes := notes[member := notes[member] + [note + " - " + name + "#" + discriminator]];
      r := Pass;
    }

    /** `on_raw_reaction_add`: returns whether the message is newly recorded as starred. */
    method StarReaction(e: Reaction) returns (recorded: bool)
      requires Valid()
      modifies this
      ensures Valid()
      ensures recorded == NewlyStarred(old(starred), e)
      ensures starred == if recorded then old(starred) + {e.messageId} else old(starred)
      ensures logCapture == old(logCapture) && roles == old(roles) && bans == old(bans) && mutes == old(mutes)
      ensures warnings == old(warnings) && notes == old(notes) && issued == old(issued)
    {
      recorded := false;
      if e.emoji == StarEmoji {
        if e.messageId !in starred {
          if e.stars >= StarThreshold {
            starred := starred + {e.messageId};
            recorded := true;
          }
        }
      }
    }

    /** `serverstatus`. */
    function ServerStatusOf(permitted: bool): (r: Result<StatusReport, ModError>)
      reads this
      ensures !permitted ==> r == Err(NoPermission)
      ensures permitted ==> r.Ok? && |r.value.warnings| <= FieldLimit && |r.value.errors| <= FieldLimit
      ensures permitted ==> (r.value.status == Errors <==> exists e :: e in logCapture && HasError(e))
      ensures permitted ==> (r.value.status == Operational <==> forall e :: e in logCapture ==> !HasError(e) && !HasWarning(e))
    {
      if permitted then StatusMeaning(logCapture); Ok(Report(logCapture)) else Err(NoPermission)
    }
  }
}
