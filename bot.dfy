/**
 * The attendance bot's handlers over an in-memory store. Every reply or notification the bot
 * would send is appended to `outbox`; the tables of the store are fields the handlers update.
 */
module Bot {
  import opened Wrappers
  import opened Text
  import opened AttendanceLine
  import opened GroupNames
  import opened Store
  import opened Listing

  datatype ChatKind = PrivateChat | GroupChat | SupergroupChat | ChannelChat

  datatype Chat = Chat(id: int, kind: ChatKind)

  /** The sender of an update: `ctx.from`. */
  datatype Sender = Sender(id: int, username: Option<string>, firstName: Option<string>)

  /**
   * The commands that name their own refusal and usage texts: the owner-only ones, and `/show`
   * and `/add`, which have only a usage text.
   */
  datatype Command = Ruhsat | RuhsatBer | RuhsatRad | GuruhQosh | GuruhgaQosh | AllowedGroup | Allow | Guruhlar | Show | Add

  /** The texts the bot sends, by meaning. */
  datatype Reply =
    | ChatNotAllowed
    | IdMustBeNumber
    | AwaitedChatAllowed(chatId: int)
    | AwaitingApproval(uid: int)
    | PendingNotice(name: string, uid: int)
    | JoinPrompt
    | Welcome
    | JoinQuestion(username: Option<string>)
    | FormatHelp
    | NoGroupAccess(sinf: string, uid: int)
    | ReportNotSaved
    | AbsenteesNotSaved
    | Saved(sinf: string, date: string, kelgan: nat, jami: nat, absent: string)
    | ListingNeedsPermission
    | NoReports
    | ListingPart(text: string)
    | AlreadyRequested
    | RequestSent
    | RequestNotice(name: string, uid: int)
    | Thanks
    | Refused(cmd: Command)
    | Usage(cmd: Command)
    | UserNotFound(cmd: Command)
    | Granted(uid: int)
    | GrantNotice(cmd: Command)
    | Rejected(uid: int)
    | RejectNotice
    | GroupExists(name: string)
    | GroupAdded(name: string)
    | GroupNotFound(name: string)
    | Linked(uid: int, name: string)
    | CurrentChatAllowed(chatId: int)
    | ChatAllowed(chatId: int)
    | AskChatId
    | NoGroups
    | GroupList(names: seq<string>)
    | StoreError

  /** A message sent to a chat (a group, or a user's private chat). */
  datatype Outgoing = Outgoing(chat: int, reply: Reply)

  /** Which step ended `handleDavomat`. */
  datatype Outcome = NotAllowed | BadFormat | NoAccess | ReportFailed | AbsenteesFailed | Stored

  // ---------------------------------------------------------------- texts of commands

  /** `text.replace(/^\/cmd\s*\/i, '').trim()`: the argument after a command. */
  function CommandArg(text: string, cmd: string): (r: string)
    ensures |r| <= |text|
    ensures r == [] || (!IsSpace(r[0]) && !IsSpace(r[|r| - 1]))
  {
    Trim(AfterCommand(text, cmd))
  }

  /** The text after a leading `/cmd` (in any case), or the whole text when it does not start so. */
  function AfterCommand(text: string, cmd: string): (r: string)
    ensures |r| <= |text|
  {
    if |cmd| + 1 <= |text| && text[0] == '/' && EqualsIgnoreCase(text[1..|cmd| + 1], cmd)
    then text[|cmd| + 1..] else text
  }

  /** The argument written after a command, one space apart, is the argument the handler reads. */
  lemma CommandArgOf(cmd: string, arg: string)
    requires LowerWord(cmd)
    requires arg == [] || Trimmed(arg)
    ensures CommandArg("/" + cmd + " " + arg, cmd) == arg
  {
    var text := "/" + cmd + " " + arg;
    assert text[1..|cmd| + 1] == cmd;
    assert EqualsIgnoreCase(cmd, cmd);
    assert text[|cmd| + 1..] == " " + arg;
    TrimStartSpaces(" ", arg);
    TrimEndNoop(arg);
  }

  /** `/^\d+$/.test(s)`. */
  predicate IsNumeral(s: string) {
    s != [] && AllDigits(s)
  }

  /** `/^-?\d+$/.test(s)`: a chat id as the owner types it. */
  predicate IsChatId(s: string) {
    IsNumeral(s) || (|s| >= 2 && s[0] == '-' && IsNumeral(s[1..]))
  }

  /** `parseInt(s, 10)` on a chat id. */
  function ChatIdValue(s: string): int
    requires IsChatId(s)
  {
    if s[0] == '-' then -(DigitsValue(s[1..]) as int) else DigitsValue(s)
  }

  /** A chat id written out in decimal, as Telegram shows it. */
  function ChatIdText(x: int): (r: string)
    ensures IsChatId(r)
  {
    if x < 0 then "-" + NatToString(-x) else NatToString(x)
  }

  /** The chat id the owner types in is the chat id stored. */
  lemma ChatIdRoundTrip(x: int)
    ensures ChatIdValue(ChatIdText(x)) == x
  {
    if x < 0 {
      var d := NatToString(-x);
      assert ("-" + d)[1..] == d;
    }
  }

  /** How a sender is named to the owner: `@username`, else the first name, else `fallback`. */
  function DisplayName(from: Sender, fallback: string): (r: string)
    ensures from.username.Some? && from.username.value != "" ==> r == "@" + from.username.value
  {
    if from.username.Some? && from.username.value != "" then "@" + from.username.value
    else if from.firstName.Some? && from.firstName.value != "" then from.firstName.value
    else fallback
  }

  /** The listing's messages as sent to one chat. */
  function ListingReplies(chat: int, msgs: seq<string>): (r: seq<Outgoing>)
    ensures |r| == |msgs|
    ensures forall i :: 0 <= i < |msgs| ==> r[i] == Outgoing(chat, ListingPart(msgs[i]))
  {
    seq(|msgs|, i requires 0 <= i < |msgs| => Outgoing(chat, ListingPart(msgs[i])))
  }

  /** Code-point order without repeats: how `order('name')` returns distinct names. */
  predicate StrictlySorted(names: seq<string>) {
    forall i, j :: 0 <= i < j < |names| ==> Before(names[i], names[j])
  }

  /** Every non-empty set of names has a first one in code-point order. */
  lemma {:induction false} FirstNameExists(names: set<string>)
    requires names != {}
    ensures exists m :: m in names && forall y :: y in names && y != m ==> Before(m, y)
    decreases |names|
  {
    var x :| x in names;
    var rest := names - {x};
    if rest != {} {
      FirstNameExists(rest);
      var m :| m in rest && forall y :: y in rest && y != m ==> Before(m, y);
      BeforeTotal(x, m);
      if Before(x, m) {
        forall y | y in names && y != x
          ensures Before(x, y)
        {
          if y != m { BeforeTransitive(x, m, y); }
        }
      } else {
        assert forall y :: y in names && y != m ==> Before(m, y);
      }
    } else {
      assert names == {x};
    }
  }

  /** The stored group names in code-point order: `select('name').order('name')`. */
  method OrderedNames(names: set<string>) returns (r: seq<string>)
    ensures StrictlySorted(r)
    ensures forall x :: x in r <==> x in names
  {
    r := [];
    var rest := names;
    while rest != {}
      invariant StrictlySorted(r)
      invariant forall x :: x in names <==> x in r || x in rest
      invariant forall x, y :: x in r && y in rest ==> Before(x, y)
      decreases |rest|
    {
      FirstNameExists(rest);
      var m :| m in rest && forall y :: y in rest && y != m ==> Before(m, y);
      r := r + [m];
      rest := rest - {m};
    }
  }

  /**
   * The user a command names: a numeral is the id itself; otherwise the member lookup of
   * the name in the chat (`getChatMember`) decides. 0 stands for "not found", as a missing
   * or zero id is falsy.
   */
  function TargetId(arg: string, lookup: Option<int>): int {
    if IsNumeral(arg) then DigitsValue(arg) else if lookup.Some? then lookup.value else 0
  }

  /** An id typed in decimal names that user, whatever the member lookup would say. */
  lemma TargetIdOfNumber(n: nat, lookup: Option<int>)
    ensures TargetId(NatToString(n), lookup) == n
  {
  }

  /** An `@username` is never read as an id: the member lookup decides, and no answer means not found. */
  lemma TargetIdOfUsername(name: string, lookup: Option<int>)
    ensures TargetId("@" + name, lookup) == if lookup.Some? then lookup.value else 0
  {
    assert !IsDigit(("@" + name)[0]);
  }

  /**
   * `/guruhga_qosh <id> <name>`: the words after the command are the typed id and the group
   * name, and the id names the user to link.
   */
  lemma LinkWordsOf(n: nat, name: string, lookup: Option<int>)
    requires name != [] && NoSpace(name)
    ensures var parts := SplitSpaces(CommandArg("/guruhga_qosh " + NatToString(n) + " " + name, "guruhga_qosh"));
      && parts == [NatToString(n), name]
      && TargetId(Join(parts[..1], " "), lookup) == n
  {
    var id := NatToString(n);
    var arg := Join([id, name], " ");
    WordsTrimmed(id, name);
    assert "/guruhga_qosh " + id + " " + name == "/guruhga_qosh " + arg;
    GuruhgaArg(arg);
    SplitSpacesJoin([id, name]);
    assert [id, name][..1] == [id];
    TargetIdOfNumber(n, lookup);
  }

  /** An id and a name joined by a space: a trimmed text of two words without white space. */
  lemma WordsTrimmed(id: string, name: string)
    requires id != [] && AllDigits(id) && name != [] && NoSpace(name)
    ensures Join([id, name], " ") == id + " " + name
    ensures Trimmed(Join([id, name], " "))
    ensures forall i :: 0 <= i < |[id, name]| ==> [id, name][i] != [] && NoSpace([id, name][i])
  {
    assert [id, name][1..] == [name];
    assert !IsSpace(id[0]) && IsDigit(id[0]);
    assert NoSpace(id) by { assert forall i :: 0 <= i < |id| ==> IsDigit(id[i]); }
    assert (id + " " + name)[0] == id[0];
  }

  /** The argument of `/guruhga_qosh`, written one space after it, is the text the handler splits. */
  lemma GuruhgaArg(arg: string)
    requires Trimmed(arg)
    ensures CommandArg("/guruhga_qosh " + arg, "guruhga_qosh") == arg
  {
    assert "/guruhga_qosh " + arg == "/" + "guruhga_qosh" + " " + arg;
    assert LowerWord("guruhga_qosh");
    CommandArgOf("guruhga_qosh", arg);
  }

  /** Rendering each report with the names grouped by report id gives the listing's lines. */
  function GroupedLines(rs: seq<Report>, byReport: map<nat, seq<string>>): (lines: seq<string>)
    ensures |lines| == |rs|
  {
    seq(|rs|, k requires 0 <= k < |rs| =>
      RenderLine(rs[|rs| - 1 - k], if rs[|rs| - 1 - k].id in byReport then byReport[rs[|rs| - 1 - k].id] else []))
  }

  lemma GroupedLinesAreReportLines(rs: seq<Report>, rows: seq<Absent>, byReport: map<nat, seq<string>>)
    requires forall id :: id in byReport <==> NamesOf(rows, id) != []
    requires forall id :: id in byReport ==> byReport[id] == NamesOf(rows, id)
    ensures GroupedLines(rs, byReport) == ReportLines(rs, rows)
  {
    var lines := GroupedLines(rs, byReport);
    forall k | 0 <= k < |rs|
      ensures lines[k] == ReportLines(rs, rows)[k]
    {
      var r := rs[|rs| - 1 - k];
      assert (if r.id in byReport then byReport[r.id] else []) == NamesOf(rows, r.id);
    }
  }

  /**
   * The reply `handleDavomat` gives a sender with permission: the format help, the missing
   * access to the class, either failed insert, or the summary of what was saved.
   */
  function ReportReply(outcome: Outcome, parsed: Option<Parsed>, from: int, localDate: string): (r: Reply)
    requires outcome != NotAllowed && (outcome != BadFormat ==> parsed.Some?)
    ensures r.Saved? <==> outcome == Stored
    ensures r.Saved? ==>
      && r.sinf == parsed.value.sinf && r.kelgan == parsed.value.kelgan && r.jami == parsed.value.jami
      && r.absent == Join(parsed.value.kelmaganlar, ", ")
  {
    match outcome
    case BadFormat => FormatHelp
    case NoAccess => NoGroupAccess(parsed.value.sinf, from)
    case ReportFailed => ReportNotSaved
    case AbsenteesFailed => AbsenteesNotSaved
    case Stored =>
      var p := parsed.value;
      Saved(p.sinf, localDate, p.kelgan, p.jami, Join(p.kelmaganlar, ", "))
  }

  // ---------------------------------------------------------------- the bot and its store

  class AttendanceBot {
    /** `OWNER_ID`: the first configured admin id, or none. */
    const owner: Option<int>

    var users: map<int, UserRec>
    var groups: map<string, GroupRow>
    /** `user_groups`: (user id, group id) pairs. */
    var links: set<(int, nat)>
    /** `allowed_chats`: chat id to the owner who allowed it. */
    var allowedChats: map<int, int>
    var requests: seq<Request>
    /** `davomat`, oldest first. */
    var reports: seq<Report>
    var absentees: seq<Absent>
    /** `pendingAllowedGroupId`: owners whose next message should be a chat id. */
    var awaiting: set<int>
    var outbox: seq<Outgoing>
    var nextReportId: nat
    var nextGroupId: nat

    ghost predicate Valid()
      reads this`requests, this`reports, this`absentees, this`nextReportId, this`groups, this`nextGroupId
    {
      && owner != Some(0)
      && AtMostOnePending(requests)
      && (forall i :: 0 <= i < |reports| ==> reports[i].id < nextReportId)
      && (forall i :: 0 <= i < |absentees| ==> absentees[i].reportId < nextReportId)
      && (forall g :: g in groups ==> groups[g].id < nextGroupId)
      && Listable(reports, absentees)
    }

    /** A bot with an empty store, configured with the first admin id. */
    constructor (firstAdmin: Option<int>)
      ensures Valid()
      ensures owner == ConfiguredOwner(firstAdmin)
      ensures users == map[] && groups == map[] && links == {} && allowedChats == map[]
      ensures requests == [] && reports == [] && absentees == [] && awaiting == {} && outbox == []
    {
      owner := ConfiguredOwner(firstAdmin);
      users, groups, links, allowedChats := map[], map[], {}, map[];
      requests, reports, absentees := [], [], [];
      awaiting, outbox := {}, [];
      nextReportId, nextGroupId := 0, 0;
    }

    /** `isChatAllowed`. */
    predicate IsChatAllowed(chatId: int)
      reads this
    {
      chatId in allowedChats
    }

    /** `ensureUser`: the stored user, or a new one created for the id. */
    method EnsureUser(uid: int, username: Option<string>) returns (rec: UserRec)
      requires Valid()
      modifies this`users
      ensures Valid()
      ensures users == EnsuredUsers(old(users), uid, username, owner)
      ensures rec == users[uid]
    {
      if uid !in users {
        users := users[uid := NewUser(uid, username, owner)];
      }
      rec := users[uid];
    }

    /**
     * `getOwnerId`: some stored owner (`limit(1)` names none in particular), unless that id
     * is 0, which counts as missing; then the configured owner. The bot's own writes never
     * make user 0 an owner (`NoOwnerZeroKept`), so a stored owner is found whenever there is one.
     */
    method GetOwnerId() returns (r: Option<int>)
      requires Valid()
      ensures r != Some(0)
      ensures r == owner || (r.Some? && r.value in users && users[r.value].isOwner)
      ensures (exists k :: k in users && users[k].isOwner) && NoOwnerZero(users) ==>
        r.Some? && r.value in users && users[r.value].isOwner
      ensures (forall k :: k in users ==> !users[k].isOwner) ==> r == owner
    {
      if k :| k in users && users[k].isOwner {
        r := if k != 0 then Some(k) else owner;
      } else {
        r := owner;
      }
    }

    /**
     * `canUserAccessGroup`: owners pass at once; otherwise each spelling of the class is
     * looked up in turn, and the first one stored as a group the user is linked to grants
     * access.
     */
    method CanUserAccessGroup(uid: int, name: string) returns (ok: bool)
      ensures ok == CanAccess(users, groups, links, owner, uid, name)
    {
      if IsOwnerIn(users, owner, uid) {
        return true;
      }
      var names := GroupNameVariants(name);
      var i := 0;
      while i < |names|
        invariant 0 <= i <= |names|
        invariant forall j :: 0 <= j < i ==> !MemberUnder(groups, links, uid, names[j])
      {
        var n := names[i];
        if n in groups {
          if (uid, groups[n].id) in links {
            assert n in names && MemberUnder(groups, links, uid, n);
            return true;
          }
        }
        i := i + 1;
      }
      return false;
    }

    /**
     * The group-chat gate: in a group or supergroup that is not allowed, only a message
     * starting with `/allowed_group` goes on; any other update gets a refusal.
     */
    method ChatGate(chat: Chat, text: string) returns (pass: bool)
      modifies this`outbox
      ensures pass <==> || (chat.kind != GroupChat && chat.kind != SupergroupChat)
                        || StartsWith(Trim(text), "/allowed_group")
                        || IsChatAllowed(chat.id)
      ensures outbox == old(outbox) + (if pass then [] else [Outgoing(chat.id, ChatNotAllowed)])
    {
      if chat.kind != GroupChat && chat.kind != SupergroupChat {
        return true;
      }
      var t := Trim(text);
      if StartsWith(t, "/allowed_group") {
        return true;
      }
      if chat.id in allowedChats {
        return true;
      }
      outbox := outbox + [Outgoing(chat.id, ChatNotAllowed)];
      return false;
    }

    /**
     * The middleware that takes the chat id an owner sends after `/allowed_group`. A sender
     * id of 0 stands for an update without a sender; `text` is "" for an update without text.
     * Commands pass through and keep the owner waiting; any other message ends the wait, and
     * is stored as an allowed chat when it is a chat id.
     */
    method AwaitingChatId(uid: int, chat: int, text: string, upsertFails: bool) returns (pass: bool)
      modifies this`awaiting, this`allowedChats, this`outbox
      ensures pass <==> uid == 0 || uid !in old(awaiting) || StartsWith(Trim(text), "/")
      ensures pass ==> awaiting == old(awaiting) && allowedChats == old(allowedChats) && outbox == old(outbox)
      ensures !pass ==> awaiting == old(awaiting) - {uid}
      ensures !pass && !IsChatId(Trim(text)) ==>
        allowedChats == old(allowedChats) && outbox == old(outbox) + [Outgoing(chat, IdMustBeNumber)]
      ensures !pass && IsChatId(Trim(text)) ==>
        var gid := ChatIdValue(Trim(text));
        && allowedChats == (if upsertFails then old(allowedChats) else old(allowedChats)[gid := uid])
        && outbox == old(outbox) + [Outgoing(chat, if upsertFails then StoreError else AwaitedChatAllowed(gid))]
    {
      if uid == 0 || uid !in awaiting {
        return true;
      }
      var t := Trim(text);
      if StartsWith(t, "/") {
        return true;
      }
      awaiting := awaiting - {uid};
      ReceiveChatId(uid, chat, t, upsertFails);
      return false;
    }

    /** The awaited message: a chat id is allowed; anything else is refused. */
    method ReceiveChatId(uid: int, chat: int, t: string, upsertFails: bool)
      modifies this`allowedChats, this`outbox
      ensures !IsChatId(t) ==> allowedChats == old(allowedChats) && outbox == old(outbox) + [Outgoing(chat, IdMustBeNumber)]
      ensures IsChatId(t) ==>
        var gid := ChatIdValue(t);
        && allowedChats == (if upsertFails then old(allowedChats) else old(allowedChats)[gid := uid])
        && outbox == old(outbox) + [Outgoing(chat, if upsertFails then StoreError else AwaitedChatAllowed(gid))]
    {
      if !IsChatId(t) {
        outbox := outbox + [Outgoing(chat, IdMustBeNumber)];
        return;
      }
      var gid := ChatIdValue(t);
      AllowChat(uid, gid, chat, AwaitedChatAllowed(gid), upsertFails);
    }
  
    /**
     * Tells the owner, when `getOwnerId` finds one, by a message to the owner's own chat.
     * The message goes to an owner, and it always goes when an owner is configured.
     */
    method NotifyOwner(r: Reply)
      requires Valid()
      modifies this`outbox
      ensures OwnerNotified(old(outbox), outbox, r)
    {
      var o := GetOwnerId();
      if o.Some? {
        outbox := outbox + [Outgoing(o.value, r)];
      }
    }

    ghost predicate OwnerNotified(before: seq<Outgoing>, after: seq<Outgoing>, r: Reply)
      reads this`users
    {
      && |before| <= |after| <= |before| + 1 && after[..|before|] == before
      && (|after| > |before| ==>
            after[|before|].reply == r && after[|before|].chat != 0 && IsOwnerIn(users, owner, after[|before|].chat))
      && (owner.Some? ==> |after| == |before| + 1)
    }

    /**
     * `handleDavomat`: ensure the user; a user without permission is reminded of the pending
     * request (and the owner told) or invited to ask; then the text is parsed, access to the
     * class is checked, and the report row and then the absentee rows are inserted, each
     * insert able to fail on its own.
     */
    method HandleDavomat(from: Sender, chat: int, text: string, today: string, localDate: string,
                         reportFails: bool, absentFails: bool) returns (outcome: Outcome)
      requires Valid() && IsoDate(today)
      modifies this`users, this`reports, this`absentees, this`nextReportId, this`outbox
      ensures Valid()
      ensures users == EnsuredUsers(old(users), from.id, from.username, owner)
      ensures DavomatDone(from, chat, ParseDavomat(text), today, localDate, reportFails, absentFails, outcome,
                          old(reports), old(absentees), old(nextReportId), old(outbox))
    {
      var _ := EnsureUser(from.id, from.username);
      outcome := DavomatOfUser(from, chat, ParseDavomat(text), today, localDate, reportFails, absentFails);
    }

    /**
     * What `handleDavomat` does once the sender's row exists, given the reports, absentee
     * rows, next report id and outbox it started from.
     */
    ghost predicate DavomatDone(from: Sender, chat: int, p: Option<Parsed>, today: string, localDate: string,
                                reportFails: bool, absentFails: bool, outcome: Outcome,
                                reports0: seq<Report>, absentees0: seq<Absent>, id: nat, outbox0: seq<Outgoing>)
      requires from.id in users
      reads this`users, this`groups, this`links, this`requests, this`reports, this`absentees, this`outbox
    {
      && outcome == (if !users[from.id].isAllowed then NotAllowed
                     else if p.None? then BadFormat
                     else if !CanAccess(users, groups, links, owner, from.id, p.value.sinf) then NoAccess
                     else if reportFails then ReportFailed
                     else if absentFails then AbsenteesFailed
                     else Stored)
      && reports == reports0 + (if outcome == Stored || outcome == AbsenteesFailed
                                then [Report(id, today, p.value.sinf, p.value.jami, p.value.kelgan, from.id)] else [])
      && absentees == absentees0 + (if outcome == Stored then AbsentRows(id, p.value.kelmaganlar) else [])
      && (outcome == Stored ==> NamesOf(absentees, id) == p.value.kelmaganlar)
      && (outcome == NotAllowed && PendingCount(requests, from.id) == 1 ==>
            && |outbox| >= |outbox0| + 1
            && outbox[..|outbox0| + 1] == outbox0 + [Outgoing(chat, AwaitingApproval(from.id))]
            && OwnerNotified(outbox[..|outbox0| + 1], outbox, PendingNotice(DisplayName(from, "Foydalanuvchi"), from.id)))
      && (outcome == NotAllowed && PendingCount(requests, from.id) != 1 ==>
            outbox == outbox0 + [Outgoing(chat, JoinPrompt)])
      && (outcome != NotAllowed ==>
            outbox == outbox0 + [Outgoing(chat, ReportReply(outcome, p, from.id, localDate))])
    }

    /** `handleDavomat` after `ensureUser` and given the parse: the permission check, then the inserts. */
    method DavomatOfUser(from: Sender, chat: int, parsed: Option<Parsed>, today: string, localDate: string,
                         reportFails: bool, absentFails: bool) returns (outcome: Outcome)
      requires Valid() && from.id in users && IsoDate(today)
      requires parsed.Some? ==> forall i :: 0 <= i < |parsed.value.kelmaganlar| ==> Trimmed(parsed.value.kelmaganlar[i])
      modifies this`reports, this`absentees, this`nextReportId, this`outbox
      ensures Valid()
      ensures DavomatDone(from, chat, parsed, today, localDate, reportFails, absentFails, outcome,
                          old(reports), old(absentees), old(nextReportId), old(outbox))
    {
      if !users[from.id].isAllowed {
        RemindOrInvite(from, chat);
        return NotAllowed;
      }
      outcome := ReportParsed(from.id, chat, parsed, today, localDate, reportFails, absentFails);
    }

    /**
     * A user without permission who has a pending request is told to wait, and the owner is
     * reminded; any other such user is invited to ask for permission.
     */
    method RemindOrInvite(from: Sender, chat: int)
      requires Valid()
      modifies this`outbox
      ensures PendingCount(requests, from.id) == 1 ==>
        && |outbox| >= |old(outbox)| + 1
        && outbox[..|old(outbox)| + 1] == old(outbox) + [Outgoing(chat, AwaitingApproval(from.id))]
        && OwnerNotified(outbox[..|old(outbox)| + 1], outbox, PendingNotice(DisplayName(from, "Foydalanuvchi"), from.id))
      ensures PendingCount(requests, from.id) != 1 ==>
        outbox == old(outbox) + [Outgoing(chat, JoinPrompt)]
    {
      if PendingCount(requests, from.id) == 1 {
        outbox := outbox + [Outgoing(chat, AwaitingApproval(from.id))];
        NotifyOwner(PendingNotice(DisplayName(from, "Foydalanuvchi"), from.id));
      } else {
        outbox := outbox + [Outgoing(chat, JoinPrompt)];
      }
    }

    /** The part of `handleDavomat` after the permission check, given the parse of the text. */
    method ReportParsed(from: int, chat: int, parsed: Option<Parsed>, today: string, localDate: string,
                        reportFails: bool, absentFails: bool) returns (outcome: Outcome)
      requires Valid() && IsoDate(today)
      requires parsed.Some? ==> forall i :: 0 <= i < |parsed.value.kelmaganlar| ==> Trimmed(parsed.value.kelmaganlar[i])
      modifies this`reports, this`absentees, this`nextReportId, this`outbox
      ensures Valid()
      ensures outcome == (if parsed.None? then BadFormat
                          else if !CanAccess(users, groups, links, owner, from, parsed.value.sinf) then NoAccess
                          else if reportFails then ReportFailed
                          else if absentFails then AbsenteesFailed
                          else Stored)
      ensures outcome != Stored && outcome != AbsenteesFailed ==> reports == old(reports)
      ensures outcome != Stored ==> absentees == old(absentees)
      ensures outcome == Stored || outcome == AbsenteesFailed ==>
        var p := parsed.value;
        reports == old(reports) + [Report(old(nextReportId), today, p.sinf, p.jami, p.kelgan, from)]
      ensures outcome == Stored ==>
        var p := parsed.value;
        && absentees == old(absentees) + AbsentRows(old(nextReportId), p.kelmaganlar)
        && NamesOf(absentees, old(nextReportId)) == p.kelmaganlar
      ensures outbox == old(outbox) + [Outgoing(chat, ReportReply(outcome, parsed, from, localDate))]
    {
      if parsed.None? {
        outbox := outbox + [Outgoing(chat, FormatHelp)];
        return BadFormat;
      }
      var p := parsed.value;
      var canAccess := CanUserAccessGroup(from, p.sinf);
      if !canAccess {
        outbox := outbox + [Outgoing(chat, NoGroupAccess(p.sinf, from))];
        return NoAccess;
      }
      outcome := SaveReport(from, chat, p, today, localDate, reportFails, absentFails);
    }

    /**
     * The inserts of `handleDavomat`: the report row, then one absentee row per name under
     * the new report's id. The absentee rows are written only when the report row was.
     */
    method SaveReport(from: int, chat: int, p: Parsed, today: string, localDate: string,
                      reportFails: bool, absentFails: bool) returns (outcome: Outcome)
      requires Valid() && IsoDate(today)
      requires forall i :: 0 <= i < |p.kelmaganlar| ==> Trimmed(p.kelmaganlar[i])
      modifies this`reports, this`absentees, this`nextReportId, this`outbox
      ensures Valid()
      ensures outcome == (if reportFails then ReportFailed else if absentFails then AbsenteesFailed else Stored)
      ensures reportFails ==> reports == old(reports)
      ensures !reportFails ==> reports == old(reports) + [Report(old(nextReportId), today, p.sinf, p.jami, p.kelgan, from)]
      ensures reportFails || absentFails ==> absentees == old(absentees)
      ensures !reportFails && !absentFails ==>
        && absentees == old(absentees) + AbsentRows(old(nextReportId), p.kelmaganlar)
        && NamesOf(absentees, old(nextReportId)) == p.kelmaganlar
      ensures outbox == old(outbox) + [Outgoing(chat,
        if reportFails then ReportNotSaved
        else if absentFails then AbsenteesNotSaved
        else Saved(p.sinf, localDate, p.kelgan, p.jami, Join(p.kelmaganlar, ", ")))]
    {
      if reportFails {
        outbox := outbox + [Outgoing(chat, ReportNotSaved)];
        return ReportFailed;
      }
      var id := nextReportId;
      var r := Report(id, today, p.sinf, p.jami, p.kelgan, from);
      ListableAddReport(reports, absentees, r);
      reports := reports + [r];
      nextReportId := nextReportId + 1;
      if absentFails {
        outbox := outbox + [Outgoing(chat, AbsenteesNotSaved)];
        return AbsenteesFailed;
      }
      NamesOfNewReport(absentees, id, p.kelmaganlar);
      ListableAddRows(reports, absentees, id, p.kelmaganlar);
      absentees := absentees + AbsentRows(id, p.kelmaganlar);
      outbox := outbox + [Outgoing(chat, Saved(p.sinf, localDate, p.kelgan, p.jami, Join(p.kelmaganlar, ", ")))];
      return Stored;
    }

    /**
     * `showDavomatList`: for a user with permission, every report, newest first, with its
     * absentees, packed into messages: every report's line once, in order, none cut in two.
     */
    method ShowDavomatList(from: Sender, chat: int)
      requires Valid()
      modifies this`users, this`outbox
      ensures Valid()
      ensures users == EnsuredUsers(old(users), from.id, from.username, owner)
      ensures ListingSent(from, chat, old(outbox))
    {
      var user := EnsureUser(from.id, from.username);
      if !user.isAllowed {
        outbox := outbox + [Outgoing(chat, ListingNeedsPermission)];
        return;
      }
      if reports == [] {
        outbox := outbox + [Outgoing(chat, NoReports)];
        return;
      }
      StoredListing(reports, absentees);
      var byReport := GroupByReport(absentees);
      var lines := GroupedLines(reports, byReport);
      GroupedLinesAreReportLines(reports, absentees, byReport);
      var msgs := Pack(lines);
      outbox := outbox + ListingReplies(chat, msgs);
    }

    /**
     * What `showDavomatList` sends once the sender's row exists, given the outbox it started
     * from: a refusal, "no records", or the packed listing of every stored report.
     */
    ghost predicate ListingSent(from: Sender, chat: int, outbox0: seq<Outgoing>)
      requires from.id in users
      reads this`users, this`reports, this`absentees, this`outbox
    {
      && (!users[from.id].isAllowed ==> outbox == outbox0 + [Outgoing(chat, ListingNeedsPermission)])
      && (users[from.id].isAllowed && reports == [] ==> outbox == outbox0 + [Outgoing(chat, NoReports)])
      && (users[from.id].isAllowed && reports != [] ==>
            var lines := ReportLines(reports, absentees);
            && outbox == outbox0 + ListingReplies(chat, Messages(lines))
            && Flatten(ListingBlocks(lines)) == lines
            && Messages(lines) == Shown(ListingBlocks(lines), Header))
    }

    /**
     * `/show`: only the argument "davomat" lists the reports; anything else gets the usage line.
     * `toLowerCase()` turns a text into "davomat" exactly when it is that word in any mix of
     * ASCII cases (no other character lowers to one of its letters).
     */
    method Show(from: Sender, chat: int, text: string)
      requires Valid()
      modifies this`users, this`outbox
      ensures Valid()
      ensures ShowDone(from, chat, CommandArg(text, "show"), old(users), old(outbox))
    {
      ShowArg(from, chat, CommandArg(text, "show"));
    }

    /** What `/show` does with its argument, given the users and outbox it started from. */
    ghost predicate ShowDone(from: Sender, chat: int, arg: string, users0: map<int, UserRec>, outbox0: seq<Outgoing>)
      reads this`users, this`reports, this`absentees, this`outbox
    {
      && (!EqualsIgnoreCase(arg, "davomat") ==> users == users0 && outbox == outbox0 + [Outgoing(chat, Usage(Command.Show))])
      && (EqualsIgnoreCase(arg, "davomat") ==>
            users == EnsuredUsers(users0, from.id, from.username, owner) && ListingSent(from, chat, outbox0))
    }

    /** `/show` once its argument is known. */
    method ShowArg(from: Sender, chat: int, arg: string)
      requires Valid()
      modifies this`users, this`outbox
      ensures Valid()
      ensures ShowDone(from, chat, arg, old(users), old(outbox))
    {
      if !EqualsIgnoreCase(arg, "davomat") {
        outbox := outbox + [Outgoing(chat, Usage(Command.Show))];
        return;
      }
      ShowDavomatList(from, chat);
    }

    /** `/davomat`: without an argument the listing; with one, the attendance line it carries. */
    method Davomat(from: Sender, chat: int, text: string, today: string, localDate: string,
                   reportFails: bool, absentFails: bool) returns (outcome: Option<Outcome>)
      requires Valid() && IsoDate(today)
      modifies this`users, this`reports, this`absentees, this`nextReportId, this`outbox
      ensures Valid()
      ensures users == EnsuredUsers(old(users), from.id, from.username, owner)
      ensures CommandArg(text, "davomat") == [] ==>
        && outcome == None
        && reports == old(reports) && absentees == old(absentees) && nextReportId == old(nextReportId)
        && ListingSent(from, chat, old(outbox))
      ensures CommandArg(text, "davomat") != [] ==>
        && outcome.Some?
        && DavomatDone(from, chat, ParseDavomat(CommandArg(text, "davomat")), today, localDate, reportFails,
                       absentFails, outcome.value, old(reports), old(absentees), old(nextReportId), old(outbox))
    {
      var arg := CommandArg(text, "davomat");
      if arg == [] {
        ShowDavomatList(from, chat);
        return None;
      }
      var o := HandleDavomat(from, chat, arg, today, localDate, reportFails, absentFails);
      return Some(o);
    }

    /** `/add`: the attendance line after the command, or the usage line when there is none. */
    method Add(from: Sender, chat: int, text: string, today: string, localDate: string,
               reportFails: bool, absentFails: bool) returns (outcome: Option<Outcome>)
      requires Valid() && IsoDate(today)
      modifies this`users, this`reports, this`absentees, this`nextReportId, this`outbox
      ensures Valid()
      ensures CommandArg(text, "add") == [] ==>
        && outcome == None && users == old(users)
        && reports == old(reports) && absentees == old(absentees) && nextReportId == old(nextReportId)
        && outbox == old(outbox) + [Outgoing(chat, Usage(Command.Add))]
      ensures CommandArg(text, "add") != [] ==>
        && outcome.Some?
        && users == EnsuredUsers(old(users), from.id, from.username, owner)
        && DavomatDone(from, chat, ParseDavomat(CommandArg(text, "add")), today, localDate, reportFails,
                       absentFails, outcome.value, old(reports), old(absentees), old(nextReportId), old(outbox))
    {
      var arg := CommandArg(text, "add");
      if arg == [] {
        outbox := outbox + [Outgoing(chat, Usage(Command.Add))];
        return None;
      }
      var o := HandleDavomat(from, chat, arg, today, localDate, reportFails, absentFails);
      return Some(o);
    }

    /** Any other text: a text starting with '/' is dropped; the rest is an attendance line. */
    method OnText(from: Sender, chat: int, text: string, today: string, localDate: string,
                  reportFails: bool, absentFails: bool) returns (outcome: Option<Outcome>)
      requires Valid() && IsoDate(today)
      modifies this`users, this`reports, this`absentees, this`nextReportId, this`outbox
      ensures Valid()
      ensures text != [] && text[0] == '/' ==>
        && outcome == None && users == old(users)
        && reports == old(reports) && absentees == old(absentees) && nextReportId == old(nextReportId)
        && outbox == old(outbox)
      ensures text == [] || text[0] != '/' ==>
        && outcome.Some?
        && users == EnsuredUsers(old(users), from.id, from.username, owner)
        && DavomatDone(from, chat, ParseDavomat(text), today, localDate, reportFails,
                       absentFails, outcome.value, old(reports), old(absentees), old(nextReportId), old(outbox))
    {
      if text != [] && text[0] == '/' {
        return None;
      }
      var o := HandleDavomat(from, chat, text, today, localDate, reportFails, absentFails);
      return Some(o);
    }

    /**
     * `/start`: the user is stored if new; one with permission is welcomed, one with a pending
     * request is told to wait, anyone else is asked whether to join (by `@username` if known).
     */
    method Start(from: Sender, chat: int)
      requires Valid()
      modifies this`users, this`outbox
      ensures Valid()
      ensures users == EnsuredUsers(old(users), from.id, from.username, owner)
      ensures users[from.id].isAllowed ==> outbox == old(outbox) + [Outgoing(chat, Welcome)]
      ensures !users[from.id].isAllowed && PendingCount(requests, from.id) == 1 ==>
        outbox == old(outbox) + [Outgoing(chat, AlreadyRequested)]
      ensures !users[from.id].isAllowed && PendingCount(requests, from.id) != 1 ==>
        outbox == old(outbox) + [Outgoing(chat, JoinQuestion(OrNull(from.username)))]
    {
      var user := EnsureUser(from.id, from.username);
      if user.isAllowed {
        outbox := outbox + [Outgoing(chat, Welcome)];
      } else if PendingCount(requests, from.id) == 1 {
        outbox := outbox + [Outgoing(chat, AlreadyRequested)];
      } else {
        outbox := outbox + [Outgoing(chat, JoinQuestion(OrNull(from.username)))];
      }
    }

    /**
     * The "Ha" button: a request is recorded only when the user has no pending one; then the
     * owner is told how to approve or reject it.
     */
    method RuhsatHa(from: Sender, chat: int)
      requires Valid()
      modifies this`requests, this`outbox
      ensures Valid()
      ensures PendingCount(requests, from.id) == 1
      ensures old(PendingCount(requests, from.id)) == 1 ==>
        requests == old(requests) && outbox == old(outbox) + [Outgoing(chat, AlreadyRequested)]
      ensures old(PendingCount(requests, from.id)) != 1 ==>
        && requests == old(requests) + [Request(from.id, OrNull(from.username), Pending)]
        && |outbox| >= |old(outbox)| + 1
        && outbox[..|old(outbox)| + 1] == old(outbox) + [Outgoing(chat, RequestSent)]
        && OwnerNotified(outbox[..|old(outbox)| + 1], outbox, RequestNotice(DisplayName(from, ""), from.id))
    {
      if PendingCount(requests, from.id) == 1 {
        outbox := outbox + [Outgoing(chat, AlreadyRequested)];
        return;
      }
      var req := Request(from.id, OrNull(from.username), Pending);
      RequestKeepsAtMostOne(requests, req);
      PendingAfterAppend(requests, req, from.id);
      requests := requests + [req];
      outbox := outbox + [Outgoing(chat, RequestSent)];
      ghost var sent := outbox;
      NotifyOwner(RequestNotice(DisplayName(from, ""), from.id));
      assert outbox[..|sent|] == sent;
    }

    /** The "Yo'q" button: a thank-you, and nothing recorded. */
    method RuhsatYoq(chat: int)
      modifies this`outbox
      ensures outbox == old(outbox) + [Outgoing(chat, Thanks)]
    {
      outbox := outbox + [Outgoing(chat, Thanks)];
    }

    /** `/ruhsat <id | @username>`: the owner gives a user permission; requests are left alone. */
    method Ruhsat(from: int, chat: int, text: string, lookup: Option<int>)
      requires Valid()
      modifies this`users, this`outbox
      ensures Valid()
      ensures !IsOwnerIn(old(users), owner, from) ==>
        users == old(users) && outbox == old(outbox) + [Outgoing(chat, Refused(Command.Ruhsat))]
      ensures IsOwnerIn(old(users), owner, from) ==>
        GrantDone(chat, CommandArg(text, "ruhsat"), lookup, old(users), old(outbox))
    {
      var arg := CommandArg(text, "ruhsat");
      GrantFor(from, chat, arg, lookup);
    }

    /** `/ruhsat` once its argument is known, from the owner check on. */
    method GrantFor(from: int, chat: int, arg: string, lookup: Option<int>)
      requires Valid()
      modifies this`users, this`outbox
      ensures Valid()
      ensures !IsOwnerIn(old(users), owner, from) ==>
        users == old(users) && outbox == old(outbox) + [Outgoing(chat, Refused(Command.Ruhsat))]
      ensures IsOwnerIn(old(users), owner, from) ==> GrantDone(chat, arg, lookup, old(users), old(outbox))
    {
      if !IsOwnerIn(users, owner, from) {
        outbox := outbox + [Outgoing(chat, Refused(Command.Ruhsat))];
        return;
      }
      GrantNamed(chat, arg, lookup);
    }

    /**
     * What `/ruhsat <arg>` does for an owner, given the users and outbox it started from:
     * the usage line without an argument, "not found" when the argument names nobody,
     * otherwise the named user is given permission.
     */
    ghost predicate GrantDone(chat: int, arg: string, lookup: Option<int>, users0: map<int, UserRec>, outbox0: seq<Outgoing>)
      reads this`users, this`outbox
    {
      var target := TargetId(arg, lookup);
      if arg == [] then users == users0 && outbox == outbox0 + [Outgoing(chat, Usage(Command.Ruhsat))]
      else if target == 0 then users == users0 && outbox == outbox0 + [Outgoing(chat, UserNotFound(Command.Ruhsat))]
      else users == Store.Granted(users0, target) && outbox == outbox0 + [Outgoing(chat, Granted(target))]
    }

    /** `/ruhsat` once its argument is known: the user it names is given permission. */
    method GrantNamed(chat: int, arg: string, lookup: Option<int>)
      modifies this`users, this`outbox
      ensures GrantDone(chat, arg, lookup, old(users), old(outbox))
    {
      if arg == [] {
        outbox := outbox + [Outgoing(chat, Usage(Command.Ruhsat))];
        return;
      }
      var target := TargetId(arg, lookup);
      if target == 0 {
        outbox := outbox + [Outgoing(chat, UserNotFound(Command.Ruhsat))];
        return;
      }
      users := Store.Granted(users, target);
      outbox := outbox + [Outgoing(chat, Granted(target))];
    }

    /**
     * `/ruhsat_ber <id>` and `/allow <id>`: the owner gives the user permission and approves
     * that user's pending request; the user is told.
     */
    method Approve(cmd: Command, from: int, chat: int, text: string)
      requires Valid() && (cmd == RuhsatBer || cmd == Allow)
      modifies this`users, this`requests, this`outbox
      ensures Valid()
      ensures !IsOwnerIn(old(users), owner, from) ==>
        users == old(users) && requests == old(requests) && outbox == old(outbox) + [Outgoing(chat, Refused(cmd))]
      ensures IsOwnerIn(old(users), owner, from) ==>
        var arg := CommandArg(text, if cmd == Allow then "allow" else "ruhsat_ber");
        if !IsNumeral(arg) then
          users == old(users) && requests == old(requests) && outbox == old(outbox) + [Outgoing(chat, Usage(cmd))]
        else
          var target := DigitsValue(arg);
          && users == Store.Granted(old(users), target)
          && requests == Resolve(old(requests), target, Approved)
          && outbox == old(outbox) + [Outgoing(chat, Granted(target)), Outgoing(target, GrantNotice(cmd))]
    {
      if !IsOwnerIn(users, owner, from) {
        outbox := outbox + [Outgoing(chat, Refused(cmd))];
        return;
      }
      ApproveNumbered(cmd, chat, CommandArg(text, if cmd == Allow then "allow" else "ruhsat_ber"));
    }

    /** `/ruhsat_ber` and `/allow` once the argument is known: only a numeral names the user. */
    method ApproveNumbered(cmd: Command, chat: int, arg: string)
      requires Valid()
      modifies this`users, this`requests, this`outbox
      ensures Valid()
      ensures !IsNumeral(arg) ==>
        users == old(users) && requests == old(requests) && outbox == old(outbox) + [Outgoing(chat, Usage(cmd))]
      ensures IsNumeral(arg) ==>
        var target := DigitsValue(arg);
        && users == Store.Granted(old(users), target)
        && requests == Resolve(old(requests), target, Approved)
        && outbox == old(outbox) + [Outgoing(chat, Granted(target)), Outgoing(target, GrantNotice(cmd))]
    {
      if !IsNumeral(arg) {
        outbox := outbox + [Outgoing(chat, Usage(cmd))];
        return;
      }
      var target := DigitsValue(arg);
      users := Store.Granted(users, target);
      ResolveKeepsAtMostOne(requests, target, Approved);
      requests := Resolve(requests, target, Approved);
      outbox := outbox + [Outgoing(chat, Granted(target)), Outgoing(target, GrantNotice(cmd))];
    }

    /** `/ruhsat_rad <id>`: the owner rejects the user's pending request; permission is untouched. */
    method RuhsatRad(from: int, chat: int, text: string)
      requires Valid()
      modifies this`requests, this`outbox
      ensures Valid()
      ensures users == old(users)
      ensures !IsOwnerIn(users, owner, from) ==>
        requests == old(requests) && outbox == old(outbox) + [Outgoing(chat, Refused(Command.RuhsatRad))]
      ensures IsOwnerIn(users, owner, from) ==>
        RejectDone(chat, CommandArg(text, "ruhsat_rad"), old(requests), old(outbox))
    {
      var arg := CommandArg(text, "ruhsat_rad");
      RejectFor(from, chat, arg);
    }

    /**
     * What `/ruhsat_rad <id>` does for an owner, given the requests and outbox it started from:
     * the usage line for a non-numeral; otherwise the user's pending request is rejected and
     * both the owner and the user are told.
     */
    ghost predicate RejectDone(chat: int, arg: string, requests0: seq<Request>, outbox0: seq<Outgoing>)
      reads this`requests, this`outbox
    {
      if !IsNumeral(arg) then
        requests == requests0 && outbox == outbox0 + [Outgoing(chat, Usage(Command.RuhsatRad))]
      else
        var target := DigitsValue(arg);
        && requests == Resolve(requests0, target, Status.Rejected)
        && outbox == outbox0 + [Outgoing(chat, Reply.Rejected(target)), Outgoing(target, RejectNotice)]
    }

    /** `/ruhsat_rad` once its argument is known, from the owner check on. */
    method RejectFor(from: int, chat: int, arg: string)
      requires Valid()
      modifies this`requests, this`outbox
      ensures Valid()
      ensures !IsOwnerIn(users, owner, from) ==>
        requests == old(requests) && outbox == old(outbox) + [Outgoing(chat, Refused(Command.RuhsatRad))]
      ensures IsOwnerIn(users, owner, from) ==> RejectDone(chat, arg, old(requests), old(outbox))
    {
      if !IsOwnerIn(users, owner, from) {
        outbox := outbox + [Outgoing(chat, Refused(Command.RuhsatRad))];
        return;
      }
      RejectNumbered(chat, arg);
    }

    /** `/ruhsat_rad` once the argument is known: only a numeral names the user. */
    method RejectNumbered(chat: int, arg: string)
      requires Valid()
      modifies this`requests, this`outbox
      ensures Valid()
      ensures RejectDone(chat, arg, old(requests), old(outbox))
    {
      if !IsNumeral(arg) {
        outbox := outbox + [Outgoing(chat, Usage(Command.RuhsatRad))];
        return;
      }
      var target := DigitsValue(arg);
      ResolveKeepsAtMostOne(requests, target, Status.Rejected);
      requests := Resolve(requests, target, Status.Rejected);
      outbox := outbox + [Outgoing(chat, Reply.Rejected(target)), Outgoing(target, RejectNotice)];
    }

    /**
     * `/guruh_qosh <name>`: the sender is ensured as a user first (even when not the owner);
     * then the owner adds a group under exactly the name given. A name already taken is
     * reported apart from other insert failures.
     */
    method GuruhQosh(from: Sender, chat: int, text: string, insertFails: bool)
      requires Valid()
      modifies this`users, this`groups, this`nextGroupId, this`outbox
      ensures Valid()
      ensures users == EnsuredUsers(old(users), from.id, from.username, owner)
      ensures IsOwnerIn(users, owner, from.id) == IsOwnerIn(old(users), owner, from.id)
      ensures !IsOwnerIn(users, owner, from.id) ==>
        groups == old(groups) && outbox == old(outbox) + [Outgoing(chat, Refused(Command.GuruhQosh))]
      ensures IsOwnerIn(users, owner, from.id) ==>
        var name := CommandArg(text, "guruh_qosh");
        if name == [] then groups == old(groups) && outbox == old(outbox) + [Outgoing(chat, Usage(Command.GuruhQosh))]
        else if name in old(groups) then groups == old(groups) && outbox == old(outbox) + [Outgoing(chat, GroupExists(name))]
        else if insertFails then groups == old(groups) && outbox == old(outbox) + [Outgoing(chat, StoreError)]
        else
          && groups == old(groups)[name := GroupRow(old(nextGroupId), from.id)]
          && outbox == old(outbox) + [Outgoing(chat, GroupAdded(name))]
    {
      var _ := EnsureUser(from.id, from.username);
      EnsureUserKeepsOwners(old(users), from.id, from.username, owner, from.id);
      if !IsOwnerIn(users, owner, from.id) {
        outbox := outbox + [Outgoing(chat, Refused(Command.GuruhQosh))];
        return;
      }
      AddGroup(from.id, chat, CommandArg(text, "guruh_qosh"), insertFails);
    }

    /** The insert of `/guruh_qosh`: the group name is unique, so a taken name is refused. */
    method AddGroup(from: int, chat: int, name: string, insertFails: bool)
      requires Valid()
      modifies this`groups, this`nextGroupId, this`outbox
      ensures Valid()
      ensures if name == [] then groups == old(groups) && outbox == old(outbox) + [Outgoing(chat, Usage(Command.GuruhQosh))]
        else if name in old(groups) then groups == old(groups) && outbox == old(outbox) + [Outgoing(chat, GroupExists(name))]
        else if insertFails then groups == old(groups) && outbox == old(outbox) + [Outgoing(chat, StoreError)]
        else
          && groups == old(groups)[name := GroupRow(old(nextGroupId), from)]
          && outbox == old(outbox) + [Outgoing(chat, GroupAdded(name))]
    {
      if name == [] {
        outbox := outbox + [Outgoing(chat, Usage(Command.GuruhQosh))];
        return;
      }
      if name in groups {
        outbox := outbox + [Outgoing(chat, GroupExists(name))];
        return;
      }
      if insertFails {
        outbox := outbox + [Outgoing(chat, StoreError)];
        return;
      }
      groups := groups[name := GroupRow(nextGroupId, from)];
      nextGroupId := nextGroupId + 1;
      outbox := outbox + [Outgoing(chat, GroupAdded(name))];
    }

    /**
     * `/guruhga_qosh <user> <name>`: the last word names the group, exactly as stored (no
     * other spelling is tried); the words before it name the user. The user's row is reset
     * to not allowed, then the link is stored.
     */
    method GuruhgaQosh(from: int, chat: int, text: string, lookup: Option<int>, linkFails: bool)
      requires Valid()
      modifies this`users, this`links, this`outbox
      ensures Valid()
      ensures !IsOwnerIn(old(users), owner, from) ==>
        users == old(users) && links == old(links) && outbox == old(outbox) + [Outgoing(chat, Refused(Command.GuruhgaQosh))]
      ensures IsOwnerIn(old(users), owner, from) ==>
        var parts := SplitSpaces(CommandArg(text, "guruhga_qosh"));
        if |parts| < 2 then
          users == old(users) && links == old(links) && outbox == old(outbox) + [Outgoing(chat, Usage(Command.GuruhgaQosh))]
        else
          var name := parts[|parts| - 1];
          var target := TargetId(Join(parts[..|parts| - 1], " "), lookup);
          if target == 0 then
            users == old(users) && links == old(links) && outbox == old(outbox) + [Outgoing(chat, UserNotFound(Command.GuruhgaQosh))]
          else if name !in groups then
            users == old(users) && links == old(links) && outbox == old(outbox) + [Outgoing(chat, GroupNotFound(name))]
          else
            && users == ResetForLink(old(users), target)
            && links == (if linkFails then old(links) else old(links) + {(target, groups[name].id)})
            && outbox == old(outbox) + [Outgoing(chat, if linkFails then StoreError else Linked(target, name))]
    {
      if !IsOwnerIn(users, owner, from) {
        outbox := outbox + [Outgoing(chat, Refused(Command.GuruhgaQosh))];
        return;
      }
      LinkFromWords(chat, SplitSpaces(CommandArg(text, "guruhga_qosh")), lookup, linkFails);
    }

    /** `/guruhga_qosh` once the argument is split into words: the last names the group. */
    method LinkFromWords(chat: int, parts: seq<string>, lookup: Option<int>, linkFails: bool)
      requires Valid()
      modifies this`users, this`links, this`outbox
      ensures Valid()
      ensures |parts| < 2 ==>
        users == old(users) && links == old(links) && outbox == old(outbox) + [Outgoing(chat, Usage(Command.GuruhgaQosh))]
      ensures |parts| >= 2 ==>
        var name := parts[|parts| - 1];
        var target := TargetId(Join(parts[..|parts| - 1], " "), lookup);
        if target == 0 then
          users == old(users) && links == old(links) && outbox == old(outbox) + [Outgoing(chat, UserNotFound(Command.GuruhgaQosh))]
        else if name !in groups then
          users == old(users) && links == old(links) && outbox == old(outbox) + [Outgoing(chat, GroupNotFound(name))]
        else
          && users == ResetForLink(old(users), target)
          && links == (if linkFails then old(links) else old(links) + {(target, groups[name].id)})
          && outbox == old(outbox) + [Outgoing(chat, if linkFails then StoreError else Linked(target, name))]
    {
      if |parts| < 2 {
        outbox := outbox + [Outgoing(chat, Usage(Command.GuruhgaQosh))];
        return;
      }
      var name := parts[|parts| - 1];
      var target := TargetId(Join(parts[..|parts| - 1], " "), lookup);
      if target == 0 {
        outbox := outbox + [Outgoing(chat, UserNotFound(Command.GuruhgaQosh))];
        return;
      }
      LinkToGroup(chat, target, name, linkFails);
    }

    /** The store half of `/guruhga_qosh`: find the group by its exact name, reset the user, link. */
    method LinkToGroup(chat: int, target: int, name: string, linkFails: bool)
      requires Valid()
      modifies this`users, this`links, this`outbox
      ensures Valid()
      ensures name !in groups ==>
        users == old(users) && links == old(links) && outbox == old(outbox) + [Outgoing(chat, GroupNotFound(name))]
      ensures name in groups ==>
        && users == ResetForLink(old(users), target)
        && links == (if linkFails then old(links) else old(links) + {(target, groups[name].id)})
        && outbox == old(outbox) + [Outgoing(chat, if linkFails then StoreError else Linked(target, name))]
    {
      if name !in groups {
        outbox := outbox + [Outgoing(chat, GroupNotFound(name))];
        return;
      }
      users := ResetForLink(users, target);
      if linkFails {
        outbox := outbox + [Outgoing(chat, StoreError)];
        return;
      }
      links := links + {(target, groups[name].id)};
      outbox := outbox + [Outgoing(chat, Linked(target, name))];
    }

    /**
     * `/allowed_group`: in a group chat the owner allows that chat; in a private chat a chat
     * id argument is allowed at once, and without one the bot waits for the id.
     */
    method AllowedGroup(from: int, chat: Chat, text: string, upsertFails: bool)
      modifies this`allowedChats, this`awaiting, this`outbox
      ensures !IsOwnerIn(users, owner, from) ==>
        && allowedChats == old(allowedChats) && awaiting == old(awaiting)
        && outbox == old(outbox) + [Outgoing(chat.id, Refused(Command.AllowedGroup))]
      ensures IsOwnerIn(users, owner, from) && (chat.kind == GroupChat || chat.kind == SupergroupChat) ==>
        && awaiting == old(awaiting)
        && allowedChats == (if upsertFails then old(allowedChats) else old(allowedChats)[chat.id := from])
        && outbox == old(outbox) + [Outgoing(chat.id, if upsertFails then StoreError else CurrentChatAllowed(chat.id))]
      ensures IsOwnerIn(users, owner, from) && chat.kind != GroupChat && chat.kind != SupergroupChat ==>
        var arg := CommandArg(text, "allowed_group");
        if IsChatId(arg) then
          var gid := ChatIdValue(arg);
          && awaiting == old(awaiting) - {from}
          && allowedChats == (if upsertFails then old(allowedChats) else old(allowedChats)[gid := from])
          && outbox == old(outbox) + [Outgoing(chat.id, if upsertFails then StoreError else ChatAllowed(gid))]
        else
          && awaiting == old(awaiting) + {from} && allowedChats == old(allowedChats)
          && outbox == old(outbox) + [Outgoing(chat.id, AskChatId)]
    {
      if !IsOwnerIn(users, owner, from) {
        outbox := outbox + [Outgoing(chat.id, Refused(Command.AllowedGroup))];
        return;
      }
      if chat.kind == GroupChat || chat.kind == SupergroupChat {
        AllowChat(from, chat.id, chat.id, CurrentChatAllowed(chat.id), upsertFails);
        return;
      }
      AllowFromPrivate(from, chat.id, CommandArg(text, "allowed_group"), upsertFails);
    }

    /** `/allowed_group` in a private chat, given its argument. */
    method AllowFromPrivate(from: int, chat: int, arg: string, upsertFails: bool)
      modifies this`allowedChats, this`awaiting, this`outbox
      ensures IsChatId(arg) ==>
        var gid := ChatIdValue(arg);
        && awaiting == old(awaiting) - {from}
        && allowedChats == (if upsertFails then old(allowedChats) else old(allowedChats)[gid := from])
        && outbox == old(outbox) + [Outgoing(chat, if upsertFails then StoreError else ChatAllowed(gid))]
      ensures !IsChatId(arg) ==>
        && awaiting == old(awaiting) + {from} && allowedChats == old(allowedChats)
        && outbox == old(outbox) + [Outgoing(chat, AskChatId)]
    {
      if arg != [] && IsChatId(arg) {
        awaiting := awaiting - {from};
        var gid := ChatIdValue(arg);
        AllowChat(from, gid, chat, ChatAllowed(gid), upsertFails);
        return;
      }
      awaiting := awaiting + {from};
      outbox := outbox + [Outgoing(chat, AskChatId)];
    }

    /**
     * The upsert into the allowed chats, keyed by chat id and recording who added it, and
     * the reply that follows it: `done` on success, the store's error otherwise.
     */
    method AllowChat(addedBy: int, gid: int, replyTo: int, done: Reply, upsertFails: bool)
      modifies this`allowedChats, this`outbox
      ensures allowedChats == (if upsertFails then old(allowedChats) else old(allowedChats)[gid := addedBy])
      ensures outbox == old(outbox) + [Outgoing(replyTo, if upsertFails then StoreError else done)]
    {
      if upsertFails {
        outbox := outbox + [Outgoing(replyTo, StoreError)];
      } else {
        allowedChats := allowedChats[gid := addedBy];
        outbox := outbox + [Outgoing(replyTo, done)];
      }
    }

    /** `/guruhlar`: the owner sees every group name, in order. */
    method Guruhlar(from: int, chat: int)
      modifies this`outbox
      ensures !IsOwnerIn(users, owner, from) ==> outbox == old(outbox) + [Outgoing(chat, Refused(Command.Guruhlar))]
      ensures IsOwnerIn(users, owner, from) && groups == map[] ==> outbox == old(outbox) + [Outgoing(chat, NoGroups)]
      ensures IsOwnerIn(users, owner, from) && groups != map[] ==>
        && |outbox| == |old(outbox)| + 1 && outbox[..|old(outbox)|] == old(outbox)
        && outbox[|old(outbox)|].chat == chat && outbox[|old(outbox)|].reply.GroupList?
        && StrictlySorted(outbox[|old(outbox)|].reply.names)
        && (forall x :: x in outbox[|old(outbox)|].reply.names <==> x in groups)
    {
      if !IsOwnerIn(users, owner, from) {
        outbox := outbox + [Outgoing(chat, Refused(Command.Guruhlar))];
        return;
      }
      if groups == map[] {
        outbox := outbox + [Outgoing(chat, NoGroups)];
        return;
      }
      var names := OrderedNames(groups.Keys);
      outbox := outbox + [Outgoing(chat, GroupList(names))];
    }
  }
}
