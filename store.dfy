/**
 * The bot's tables (users, groups, user_groups, ruhsat_sorovlari, davomat and
 * kelmagan_oquvchilar) as values, with the rules the handlers apply to them.
 */
module Store {
  import opened Wrappers
  import opened GroupNames

  /** A row of `users`, keyed by the Telegram user id. */
  datatype UserRec = UserRec(username: Option<string>, isAllowed: bool, isOwner: bool)

  /** A row of `groups` (a class), keyed by its name. */
  datatype GroupRow = GroupRow(id: nat, createdBy: int)

  datatype Status = Pending | Approved | Rejected

  /** A row of `ruhsat_sorovlari`: one user's request for permission to write reports. */
  datatype Request = Request(userId: int, username: Option<string>, status: Status)

  /** A row of `davomat`: one attendance report. */
  datatype Report = Report(id: nat, date: string, sinf: string, jami: nat, kelgan: nat, createdBy: int)

  /** `new Date().toISOString().slice(0, 10)`: a date written `YYYY-MM-DD`. */
  predicate IsoDate(d: string) {
    && |d| == 10 && d[4] == '-' && d[7] == '-'
    && forall i :: 0 <= i < 10 && i != 4 && i != 7 ==> '0' <= d[i] <= '9'
  }

  /** A row of `kelmagan_oquvchilar`: one absent pupil of one report. */
  datatype Absent = Absent(reportId: nat, name: string)

  // ---------------------------------------------------------------- users and the owner

  /** `ADMIN_IDS[0] || null`: a first configured id of 0 counts as no owner at all. */
  function ConfiguredOwner(firstAdmin: Option<int>): (r: Option<int>)
    ensures r.Some? <==> firstAdmin.Some? && firstAdmin.value != 0
    ensures r.Some? ==> r == firstAdmin
  {
    if firstAdmin == Some(0) then None else firstAdmin
  }

  /** `x || null` on an optional text: the empty text is stored as null. */
  function OrNull(x: Option<string>): (r: Option<string>)
    ensures r.Some? <==> x.Some? && x.value != ""
    ensures r.Some? ==> r == x
  {
    if x == Some("") then None else x
  }

  /** The user `ensureUser` creates: allowed and owner exactly when it is the configured owner. */
  function NewUser(uid: int, username: Option<string>, owner: Option<int>): (r: UserRec)
    ensures r.isAllowed == r.isOwner
    ensures r.isOwner <==> owner == Some(uid)
    ensures r.username == OrNull(username)
  {
    UserRec(OrNull(username), owner == Some(uid), owner == Some(uid))
  }

  /**
   * The users table after `ensureUser`: a stored user is left as it is, an unknown one is
   * created; no other user is touched.
   */
  function EnsuredUsers(users: map<int, UserRec>, uid: int, username: Option<string>, owner: Option<int>)
    : (r: map<int, UserRec>)
    ensures uid in r && r[uid] == (if uid in users then users[uid] else NewUser(uid, username, owner))
    ensures r.Keys == users.Keys + {uid}
    ensures forall k :: k in users && k != uid ==> r[k] == users[k]
  {
    if uid in users then users else users[uid := NewUser(uid, username, owner)]
  }

  /** Ensuring a user a second time changes nothing, whatever name it comes with. */
  lemma EnsureUserIdempotent(users: map<int, UserRec>, uid: int, u1: Option<string>, u2: Option<string>, owner: Option<int>)
    ensures var once := EnsuredUsers(users, uid, u1, owner);
      EnsuredUsers(once, uid, u2, owner) == once
  {
  }

  /** `isOwner`: the stored owner flag, or the configured owner id. */
  predicate IsOwnerIn(users: map<int, UserRec>, owner: Option<int>, uid: int) {
    (uid in users && users[uid].isOwner) || owner == Some(uid)
  }

  /** Creating a user never makes anyone an owner, nor stops anyone being one. */
  lemma EnsureUserKeepsOwners(users: map<int, UserRec>, uid: int, username: Option<string>, owner: Option<int>, v: int)
    ensures IsOwnerIn(EnsuredUsers(users, uid, username, owner), owner, v) == IsOwnerIn(users, owner, v)
  {
  }

  /** The users table after an upsert with `is_allowed: true`: other columns are kept. */
  function Granted(users: map<int, UserRec>, target: int): (r: map<int, UserRec>)
    ensures r.Keys == users.Keys + {target}
    ensures r[target].isAllowed
    ensures r[target].isOwner <==> target in users && users[target].isOwner
    ensures target in users ==> r[target] == users[target].(isAllowed := true)
    ensures forall k :: k in users && k != target ==> r[k] == users[k]
  {
    users[target := if target in users then users[target].(isAllowed := true) else UserRec(None, true, false)]
  }

  /**
   * The users table after `/guruhga_qosh`'s upsert with `username: null, is_allowed: false`:
   * an allowed user loses the permission; only the owner flag survives.
   */
  function ResetForLink(users: map<int, UserRec>, target: int): (r: map<int, UserRec>)
    ensures r.Keys == users.Keys + {target}
    ensures !r[target].isAllowed && r[target].username == None
    ensures r[target].isOwner <==> target in users && users[target].isOwner
    ensures forall k :: k in users && k != target ==> r[k] == users[k]
  {
    users[target := if target in users then users[target].(username := None, isAllowed := false)
                    else UserRec(None, false, false)]
  }

  /** No row of user 0 carries the owner flag: `getOwnerId` would skip it as a missing id. */
  predicate NoOwnerZero(users: map<int, UserRec>) {
    !(0 in users && users[0].isOwner)
  }

  /** While 0 is not the configured owner, none of the bot's writes to users makes user 0 an owner. */
  lemma NoOwnerZeroKept(users: map<int, UserRec>, uid: int, username: Option<string>, owner: Option<int>, target: int)
    requires NoOwnerZero(users) && owner != Some(0)
    ensures NoOwnerZero(EnsuredUsers(users, uid, username, owner))
    ensures NoOwnerZero(Granted(users, target))
    ensures NoOwnerZero(ResetForLink(users, target))
  {
  }

  // ---------------------------------------------------------------- access to a class

  /** Some group is stored under the name `n` and the user is linked to it. */
  predicate MemberUnder(groups: map<string, GroupRow>, links: set<(int, nat)>, uid: int, n: string) {
    n in groups && (uid, groups[n].id) in links
  }

  /**
   * `canUserAccessGroup`: owners may write for every class; anyone else must be linked to a
   * group stored under one of the spellings of the class name.
   */
  predicate CanAccess(users: map<int, UserRec>, groups: map<string, GroupRow>, links: set<(int, nat)>,
                      owner: Option<int>, uid: int, name: string) {
    || IsOwnerIn(users, owner, uid)
    || exists n :: n in GroupNameVariants(name) && MemberUnder(groups, links, uid, n)
  }

  /** Access never depends on which spelling of a class the report uses. */
  lemma AccessBySpelling(users: map<int, UserRec>, groups: map<string, GroupRow>, links: set<(int, nat)>,
                         owner: Option<int>, uid: int, a: string, b: string)
    requires Key(a) == Key(b)
    ensures CanAccess(users, groups, links, owner, uid, a) == CanAccess(users, groups, links, owner, uid, b)
  {
    forall n | n in GroupNameVariants(a)
      ensures n in GroupNameVariants(b)
    {
      VariantsIffSameKey(a, n);
      VariantsIffSameKey(b, n);
    }
    forall n | n in GroupNameVariants(b)
      ensures n in GroupNameVariants(a)
    {
      VariantsIffSameKey(a, n);
      VariantsIffSameKey(b, n);
    }
  }

  // ---------------------------------------------------------------- permission requests

  function PendingCount(reqs: seq<Request>, uid: int): (r: nat)
    ensures r <= |reqs|
  {
    if reqs == [] then 0
    else PendingCount(reqs[..|reqs| - 1], uid)
         + (if reqs[|reqs| - 1].userId == uid && reqs[|reqs| - 1].status == Pending then 1 else 0)
  }

  /** No user ever has two pending requests. */
  ghost predicate AtMostOnePending(reqs: seq<Request>) {
    forall uid :: PendingCount(reqs, uid) <= 1
  }

  /** Appending a request changes only its own user's count, by one when it is pending. */
  lemma PendingAfterAppend(reqs: seq<Request>, req: Request, uid: int)
    ensures PendingCount(reqs + [req], uid)
         == PendingCount(reqs, uid) + (if req.userId == uid && req.status == Pending then 1 else 0)
  {
    assert (reqs + [req])[..|reqs|] == reqs;
  }

  /** A new pending request is added only for a user with none, so the invariant is kept. */
  lemma RequestKeepsAtMostOne(reqs: seq<Request>, req: Request)
    requires AtMostOnePending(reqs) && PendingCount(reqs, req.userId) == 0
    ensures AtMostOnePending(reqs + [req])
  {
    forall uid ensures PendingCount(reqs + [req], uid) <= 1 {
      PendingAfterAppend(reqs, req, uid);
    }
  }

  /** Decides a user's pending requests: `update({status}).eq(user).eq('status', 'pending')`. */
  function Resolve(reqs: seq<Request>, uid: int, st: Status): (r: seq<Request>)
    ensures |r| == |reqs|
    ensures forall i :: 0 <= i < |reqs| ==>
      r[i] == (if reqs[i].userId == uid && reqs[i].status == Pending then reqs[i].(status := st) else reqs[i])
  {
    if reqs == [] then []
    else
      var last := reqs[|reqs| - 1];
      Resolve(reqs[..|reqs| - 1], uid, st)
      + [if last.userId == uid && last.status == Pending then last.(status := st) else last]
  }

  /**
   * After approving or rejecting, the user has no pending request left, and every other
   * user has exactly as many as before.
   */
  lemma {:induction false} ResolvePending(reqs: seq<Request>, uid: int, st: Status, v: int)
    requires st != Pending
    ensures PendingCount(Resolve(reqs, uid, st), v) == if v == uid then 0 else PendingCount(reqs, v)
  {
    if reqs != [] {
      var r := Resolve(reqs, uid, st);
      assert r[..|r| - 1] == Resolve(reqs[..|reqs| - 1], uid, st);
      ResolvePending(reqs[..|reqs| - 1], uid, st, v);
    }
  }

  lemma ResolveKeepsAtMostOne(reqs: seq<Request>, uid: int, st: Status)
    requires AtMostOnePending(reqs) && st != Pending
    ensures AtMostOnePending(Resolve(reqs, uid, st))
  {
    forall v ensures PendingCount(Resolve(reqs, uid, st), v) <= 1 {
      ResolvePending(reqs, uid, st, v);
    }
  }

  // ---------------------------------------------------------------- reports

  /** The absentee rows inserted for one report, one per name, in the order written. */
  function AbsentRows(id: nat, names: seq<string>): (r: seq<Absent>)
    ensures |r| == |names|
    ensures forall i :: 0 <= i < |names| ==> r[i] == Absent(id, names[i])
  {
    if names == [] then [] else [Absent(id, names[0])] + AbsentRows(id, names[1..])
  }
}
