/** Login lockout: how often a password can be tried against one account. */
module Lockout {
  import opened Rows

  const LOCK_MS: int := 15 * 60 * 1000
  const MAX_ATTEMPTS: nat := 5

  datatype UserRow = UserRow(failedLoginAttempts: nat, lockoutUntil: Option<int>)

  datatype Answer = LockedOut | WrongPassword | LockedNow | Welcome

  /** A login reads the clock when it checks the lockout and again when it writes a new one. */
  datatype Event =
    | Login(passwordOk: bool, checkedAt: int, writtenAt: int)
    | ResetPassword(at: int)

  predicate Locked(u: UserRow, now: int) {
    u.lockoutUntil.Some? && u.lockoutUntil.value > now
  }

  function AfterLogin(u: UserRow, passwordOk: bool, checkedAt: int, writtenAt: int): (UserRow, Answer) {
    if Locked(u, checkedAt) then (u, LockedOut)
    else if !passwordOk then
      var n := u.failedLoginAttempts + 1;
      if n >= MAX_ATTEMPTS then (UserRow(n, Some(writtenAt + LOCK_MS)), LockedNow)
      else (u.(failedLoginAttempts := n), WrongPassword)
    else (UserRow(0, None), Welcome)
  }

  function Next(u: UserRow, e: Event): UserRow {
    match e
    case Login(ok, checkedAt, writtenAt) => AfterLogin(u, ok, checkedAt, writtenAt).0
    case ResetPassword(_) => UserRow(0, None)
  }

  function Run(es: seq<Event>): UserRow {
    if es == [] then UserRow(0, None) else Next(Run(es[..|es| - 1]), es[|es| - 1])
  }

  function Ends(e: Event): int {
    match e case Login(_, _, writtenAt) => writtenAt case ResetPassword(at) => at
  }

  function Starts(e: Event): int {
    match e case Login(_, checkedAt, _) => checkedAt case ResetPassword(at) => at
  }

  /** The clock does not run backwards, within an event or from one to the next. */
  predicate Timed(es: seq<Event>) {
    (forall i :: 0 <= i < |es| ==> Starts(es[i]) <= Ends(es[i])) &&
    (forall i :: 0 <= i < |es| - 1 ==> Ends(es[i]) <= Starts(es[i + 1]))
  }

  /** The failures after one more event on row u. */
  function AddFailure(u: UserRow, fs: seq<int>, e: Event): seq<int> {
    match e
    case ResetPassword(_) => []
    case Login(ok, checkedAt, writtenAt) =>
      if Locked(u, checkedAt) then fs else if ok then [] else fs + [writtenAt]
  }

  /** When the password checks that have failed since the last success or reset were recorded. */
  function Failures(es: seq<Event>): seq<int> {
    if es == [] then [] else AddFailure(Run(es[..|es| - 1]), Failures(es[..|es| - 1]), es[|es| - 1])
  }

  class Account {
    var failedLoginAttempts: nat
    var lockoutUntil: Option<int>

    function Row(): UserRow
      reads this
    {
      UserRow(failedLoginAttempts, lockoutUntil)
    }

    constructor ()
      ensures Row() == UserRow(0, None)
    {
      failedLoginAttempts, lockoutUntil := 0, None;
    }

    method Login(passwordOk: bool, checkedAt: int, writtenAt: int) returns (answer: Answer)
      modifies this
      ensures (Row(), answer) == AfterLogin(old(Row()), passwordOk, checkedAt, writtenAt)
      ensures answer == LockedOut <==> old(lockoutUntil).Some? && checkedAt < old(lockoutUntil).value
      ensures answer == Welcome <==>
              passwordOk && (old(lockoutUntil).Some? ==> old(lockoutUntil).value <= checkedAt)
      ensures answer == LockedNow <==>
              !passwordOk && (old(lockoutUntil).Some? ==> old(lockoutUntil).value <= checkedAt) &&
              old(failedLoginAttempts) >= 4
      ensures failedLoginAttempts ==
                if answer == Welcome then 0
                else if answer == LockedOut then old(failedLoginAttempts) else old(failedLoginAttempts) + 1
      ensures lockoutUntil ==
                if answer == Welcome then None
                else if answer == LockedNow then Some(writtenAt + 15 * 60 * 1000) else old(lockoutUntil)
    {
      if lockoutUntil.Some? && lockoutUntil.value > checkedAt { return LockedOut; }
      if !passwordOk {
        var newAttempts := failedLoginAttempts + 1;
        failedLoginAttempts := newAttempts;
        if newAttempts >= MAX_ATTEMPTS {
          lockoutUntil := Some(writtenAt + LOCK_MS);
          return LockedNow;
        }
        return WrongPassword;
      }
      if failedLoginAttempts > 0 || lockoutUntil.Some? {
        failedLoginAttempts, lockoutUntil := 0, None;
      }
      return Welcome;
    }

    method Reset()
      modifies this
      ensures Row() == UserRow(0, None)
    {
      failedLoginAttempts, lockoutUntil := 0, None;
    }
  }

  /** The row counts the failures, a lockout is set exactly from the fifth on and ends fifteen
      minutes after the last one, and from the fifth on failures are that far apart. */
  predicate Tells(u: UserRow, fs: seq<int>) {
    u.failedLoginAttempts == |fs| &&
    (u.lockoutUntil.Some? <==> |fs| >= MAX_ATTEMPTS) &&
    (|fs| >= MAX_ATTEMPTS ==> u.lockoutUntil == Some(fs[|fs| - 1] + LOCK_MS)) &&
    (forall i :: MAX_ATTEMPTS <= i < |fs| ==> fs[i - 1] + LOCK_MS <= fs[i])
  }

  lemma FailureTells(u: UserRow, fs: seq<int>, checkedAt: int, writtenAt: int)
    requires Tells(u, fs) && !Locked(u, checkedAt) && checkedAt <= writtenAt
    ensures Tells(AfterLogin(u, false, checkedAt, writtenAt).0, fs + [writtenAt])
  {
    var more := fs + [writtenAt];
    forall i | MAX_ATTEMPTS <= i < |more|
      ensures more[i - 1] + LOCK_MS <= more[i]
    {
      if i < |fs| { assert fs[i - 1] + LOCK_MS <= fs[i]; }
    }
  }

  /** Over every run the row tells the failed checks since the last success or reset. */
  lemma {:induction false} RowTellsFailures(es: seq<Event>)
    requires Timed(es)
    ensures Tells(Run(es), Failures(es))
  {
    if es == [] {
    } else {
      hide Tells;
      var init, e := es[..|es| - 1], es[|es| - 1];
      assert Timed(init) by {
        forall i | 0 <= i < |init| - 1 ensures Ends(init[i]) <= Starts(init[i + 1]) {
          assert init[i] == es[i] && init[i + 1] == es[i + 1];
        }
      }
      RowTellsFailures(init);
      NothingTells();
      if e.Login? && !e.passwordOk && !Locked(Run(init), e.checkedAt) {
        FailureTells(Run(init), Failures(init), e.checkedAt, e.writtenAt);
      }
    }
  }

  lemma NothingTells()
    ensures Tells(UserRow(0, None), [])
  {
  }

  lemma {:induction false} SpacedFromFifth(fs: seq<int>, n: nat)
    requires forall i :: MAX_ATTEMPTS <= i < |fs| ==> fs[i - 1] + LOCK_MS <= fs[i]
    requires MAX_ATTEMPTS <= n <= |fs|
    ensures fs[4] + (n - MAX_ATTEMPTS) * LOCK_MS <= fs[n - 1]
  {
    if n == MAX_ATTEMPTS {
    } else {
      SpacedFromFifth(fs, n - 1);
      assert fs[n - 1 - 1] + LOCK_MS <= fs[n - 1];
    }
  }

  /** The n-th failed check since the last success or reset comes at least (n - 5) * 15 minutes
      after the fifth. */
  lemma FailedChecksAreBounded(es: seq<Event>, n: nat)
    requires Timed(es) && MAX_ATTEMPTS <= n <= |Failures(es)|
    ensures Failures(es)[4] + (n - MAX_ATTEMPTS) * LOCK_MS <= Failures(es)[n - 1]
  {
    RowTellsFailures(es);
    SpacedFromFifth(Failures(es), n);
  }

  /** A login is turned away unchecked exactly while fewer than fifteen minutes have passed since
      the last of five or more failures. Otherwise the right password gets in, and a wrong one locks
      the account if and only if it is at least the fifth. */
  lemma TurnedAwayIff(es: seq<Event>, passwordOk: bool, now: int, writtenAt: int)
    requires Timed(es)
    ensures var fs := Failures(es); var answer := AfterLogin(Run(es), passwordOk, now, writtenAt).1;
            var away := |fs| >= 5 && now < fs[|fs| - 1] + 15 * 60 * 1000;
            (answer == LockedOut <==> away) && (answer == Welcome <==> !away && passwordOk) &&
            (answer == LockedNow <==> !away && !passwordOk && |fs| + 1 >= 5)
  {
    RowTellsFailures(es);
  }

  // ---- Logins that overlap ----

  /** The rows that logins past the lockout check have read and still carry. */
  datatype Sys = Sys(row: UserRow, open: map<Id, UserRow>)

  /** A login reads the row and checks the lockout; later it checks the password and writes. */
  datatype Act =
    | Open(id: Id, now: int)
    | Check(id: Id, passwordOk: bool, writtenAt: int)
    | Clear(at: int)

  /** What a login writes, going by the row it has read: a counter, and a lockout only from five on. */
  function Written(row: UserRow, seen: UserRow, passwordOk: bool, writtenAt: int): UserRow {
    if passwordOk then
      if seen.failedLoginAttempts > 0 || seen.lockoutUntil.Some? then UserRow(0, None) else row
    else
      var n := seen.failedLoginAttempts + 1;
      if n >= MAX_ATTEMPTS then UserRow(n, Some(writtenAt + LOCK_MS)) else row.(failedLoginAttempts := n)
  }

  function DoAct(s: Sys, a: Act): Sys {
    match a
    case Open(id, now) => if Locked(s.row, now) then s else s.(open := s.open[id := s.row])
    case Check(id, ok, writtenAt) =>
      if id !in s.open then s else Sys(Written(s.row, s.open[id], ok, writtenAt), s.open - {id})
    case Clear(_) => s.(row := UserRow(0, None))
  }

  function DoActs(s: Sys, acts: seq<Act>): Sys {
    if acts == [] then s else DoAct(DoActs(s, acts[..|acts| - 1]), acts[|acts| - 1])
  }

  /** How many password checks of a run fail. */
  function FailedChecks(s: Sys, acts: seq<Act>): nat {
    if acts == [] then 0
    else
      var init, a := acts[..|acts| - 1], acts[|acts| - 1];
      FailedChecks(s, init) + (if a.Check? && a.id in DoActs(s, init).open && !a.passwordOk then 1 else 0)
  }

  /** A login that nothing overlaps is the atomic one. */
  lemma AloneIsAtomic(s: Sys, id: Id, passwordOk: bool, checkedAt: int, writtenAt: int)
    requires id !in s.open
    ensures DoAct(DoAct(s, Open(id, checkedAt)), Check(id, passwordOk, writtenAt)) ==
              Sys(AfterLogin(s.row, passwordOk, checkedAt, writtenAt).0, s.open)
  {
    if !Locked(s.row, checkedAt) { assert s.open[id := s.row] - {id} == s.open; }
  }

  function Opens(n: nat): seq<Act> {
    if n == 0 then [] else Opens(n - 1) + [Open(n - 1, 0)]
  }

  function Checks(n: nat): seq<Act> {
    if n == 0 then [] else Checks(n - 1) + [Check(n - 1, false, 0)]
  }

  function Below(n: nat): (ids: set<Id>)
    ensures forall i: Id :: i in ids <==> i < n
  {
    if n == 0 then {} else Below(n - 1) + {n - 1}
  }

  function AllOpen(ids: set<Id>): map<Id, UserRow> {
    map id | id in ids :: UserRow(0, None)
  }

  lemma {:induction false} OpensOpen(n: nat)
    ensures var s0 := Sys(UserRow(0, None), map[]);
            DoActs(s0, Opens(n)) == Sys(UserRow(0, None), AllOpen(Below(n))) && FailedChecks(s0, Opens(n)) == 0
  {
    if n == 0 {
    } else {
      OpensOpen(n - 1);
      assert Opens(n)[..|Opens(n)| - 1] == Opens(n - 1);
      assert AllOpen(Below(n - 1))[n - 1 := UserRow(0, None)] == AllOpen(Below(n));
    }
  }

  lemma CheckWritesOne(row: UserRow, ids: set<Id>, id: Id)
    requires id in ids && row.lockoutUntil == None
    ensures id in AllOpen(ids)
    ensures DoAct(Sys(row, AllOpen(ids)), Check(id, false, 0)) == Sys(UserRow(1, None), AllOpen(ids - {id}))
  {
    assert AllOpen(ids) - {id} == AllOpen(ids - {id});
  }

  lemma BelowStep(n: nat, k: nat)
    requires 0 < k <= n
    ensures var ids := Below(n) - Below(k - 1); k - 1 in ids && ids - {k - 1} == Below(n) - Below(k)
  {
  }

  lemma {:induction false} ChecksCountOnce(s: Sys, n: nat, k: nat)
    requires k <= n && s == Sys(UserRow(0, None), AllOpen(Below(n)))
    ensures DoActs(s, Checks(k)) == Sys(if k == 0 then s.row else UserRow(1, None), AllOpen(Below(n) - Below(k)))
    ensures FailedChecks(s, Checks(k)) == k
    decreases k
  {
    hide DoAct, AllOpen, Below;
    if k == 0 {
      assert Below(n) - Below(0) == Below(n);
    } else {
      ChecksCountOnce(s, n, k - 1);
      BelowStep(n, k);
      CheckWritesOne(if k == 1 then s.row else UserRow(1, None), Below(n) - Below(k - 1), k - 1);
      assert Checks(k)[..|Checks(k)| - 1] == Checks(k - 1);
    }
  }

  lemma {:induction false} ActsAppend(s: Sys, xs: seq<Act>, ys: seq<Act>)
    ensures DoActs(s, xs + ys) == DoActs(DoActs(s, xs), ys)
    ensures FailedChecks(s, xs + ys) == FailedChecks(s, xs) + FailedChecks(DoActs(s, xs), ys)
  {
    if ys == [] {
      assert xs + ys == xs;
    } else {
      assert (xs + ys)[..|xs + ys| - 1] == xs + ys[..|ys| - 1];
      ActsAppend(s, xs, ys[..|ys| - 1]);
    }
  }

  /** Overlapping logins all write the counter they have read plus one: any number of failed checks
      at one moment can count as a single failure and lock nothing. */
  lemma OverlapsCountOnce(n: nat) returns (acts: seq<Act>)
    requires n > 0
    ensures var s0 := Sys(UserRow(0, None), map[]);
            FailedChecks(s0, acts) == n && DoActs(s0, acts).row == UserRow(1, None)
  {
    var s0 := Sys(UserRow(0, None), map[]);
    acts := Opens(n) + Checks(n);
    OpensOpen(n);
    ChecksCountOnce(Sys(UserRow(0, None), AllOpen(Below(n))), n, n);
    ActsAppend(s0, Opens(n), Checks(n));
  }

  /** While a lock stands until `until`, and apart from a success or a reset. */
  predicate During(a: Act, until: int) {
    match a
    case Open(_, now) => now < until
    case Check(_, ok, writtenAt) => !ok && until <= writtenAt + LOCK_MS
    case Clear(_) => false
  }

  /** What the lock does stop, in every interleaving: only the logins that were past its check when it
      was written still check a password before it ends. */
  lemma {:induction false} LockStopsNewLogins(s: Sys, acts: seq<Act>, until: int)
    requires s.row.lockoutUntil.Some? && until <= s.row.lockoutUntil.value
    requires forall i :: 0 <= i < |acts| ==> During(acts[i], until)
    ensures var s' := DoActs(s, acts);
            s'.row.lockoutUntil.Some? && until <= s'.row.lockoutUntil.value && s'.open.Keys <= s.open.Keys
    ensures FailedChecks(s, acts) + |DoActs(s, acts).open| == |s.open|
  {
    if acts == [] {
    } else {
      var init, a := acts[..|acts| - 1], acts[|acts| - 1];
      assert forall i :: 0 <= i < |init| ==> init[i] == acts[i];
      LockStopsNewLogins(s, init, until);
      var mid := DoActs(s, init);
      assert During(a, until);
      if a.Check? && a.id in mid.open {
        assert (mid.open - {a.id}).Keys == mid.open.Keys - {a.id};
        assert |mid.open - {a.id}| == |mid.open| - 1;
      }
    }
  }

  // ---- Exactly when every failure is counted ----

  /** Failed checks since the last success or reset, however the logins overlap. */
  function FailuresSince(s: Sys, acts: seq<Act>): nat {
    if acts == [] then 0
    else
      var init := acts[..|acts| - 1];
      match acts[|acts| - 1]
      case Open(_, _) => FailuresSince(s, init)
      case Clear(_) => 0
      case Check(id, ok, _) =>
        if id !in DoActs(s, init).open then FailuresSince(s, init) else if ok then 0 else FailuresSince(s, init) + 1
  }

  /** A failed check whose login read another counter than it finds, or a success that read a clean
      row, and so writes nothing, over a counter that is not zero any more. */
  predicate Loses(s: Sys, a: Act) {
    a.Check? && a.id in s.open &&
    var seen := s.open[a.id];
    if a.passwordOk then seen == UserRow(0, None) && s.row.failedLoginAttempts != 0
    else seen.failedLoginAttempts != s.row.failedLoginAttempts
  }

  predicate NoneLost(s: Sys, acts: seq<Act>) {
    acts == [] || (NoneLost(s, acts[..|acts| - 1]) && !Loses(DoActs(s, acts[..|acts| - 1]), acts[|acts| - 1]))
  }

  predicate CountedThroughout(s: Sys, acts: seq<Act>) {
    DoActs(s, acts).row.failedLoginAttempts == FailuresSince(s, acts) &&
    (acts == [] || CountedThroughout(s, acts[..|acts| - 1]))
  }

  /** In every interleaving, resets and successes included, the counter is the number of failed checks
      since the last of them throughout, if and only if no check loses a count. */
  lemma {:induction false} CountedIff(s: Sys, acts: seq<Act>)
    requires s.row.failedLoginAttempts == 0
    ensures CountedThroughout(s, acts) <==> NoneLost(s, acts)
  {
    if acts == [] {
    } else {
      CountedIff(s, acts[..|acts| - 1]);
      if CountedThroughout(s, acts[..|acts| - 1]) { LosesIff(s, acts); }
    }
  }

  lemma LosesIff(s: Sys, acts: seq<Act>)
    requires acts != [] && DoActs(s, acts[..|acts| - 1]).row.failedLoginAttempts == FailuresSince(s, acts[..|acts| - 1])
    ensures DoActs(s, acts).row.failedLoginAttempts == FailuresSince(s, acts)
       <==> !Loses(DoActs(s, acts[..|acts| - 1]), acts[|acts| - 1])
  {
  }

  predicate OnlyFails(a: Act) {
    a.Open? || (a.Check? && !a.passwordOk)
  }

  lemma {:induction false} NeverAhead(acts: seq<Act>)
    requires forall i :: 0 <= i < |acts| ==> OnlyFails(acts[i])
    ensures var s0 := Sys(UserRow(0, None), map[]); var s := DoActs(s0, acts); var n := FailedChecks(s0, acts);
            s.row.failedLoginAttempts <= n && (forall id :: id in s.open ==> s.open[id].failedLoginAttempts <= n) &&
            (s.row.failedLoginAttempts < n ==> forall id :: id in s.open ==> s.open[id].failedLoginAttempts < n)
    ensures var s0 := Sys(UserRow(0, None), map[]);
            DoActs(s0, acts).row.failedLoginAttempts == FailedChecks(s0, acts) <==> NoneLost(s0, acts)
  {
    if acts == [] {
    } else {
      var init := acts[..|acts| - 1];
      assert forall i :: 0 <= i < |init| ==> init[i] == acts[i];
      NeverAhead(init);
      assert OnlyFails(acts[|acts| - 1]);
    }
  }

  /** From a clean row, while nobody succeeds or resets: every failed check is in the counter in the
      end, if and only if each of them found the counter that its login had read. */
  lemma CountedInTheEndIff(acts: seq<Act>)
    requires forall i :: 0 <= i < |acts| ==> OnlyFails(acts[i])
    ensures var s0 := Sys(UserRow(0, None), map[]);
            DoActs(s0, acts).row.failedLoginAttempts == FailedChecks(s0, acts) <==> NoneLost(s0, acts)
  {
    NeverAhead(acts);
  }

  // ---- Overlapping logins that do not disturb each other are atomic ----

  function TimeOf(a: Act): int {
    match a case Open(_, now) => now case Check(_, _, writtenAt) => writtenAt case Clear(at) => at
  }

  predicate InTime(acts: seq<Act>) {
    forall i :: 0 <= i < |acts| - 1 ==> TimeOf(acts[i]) <= TimeOf(acts[i + 1])
  }

  /** Every check finds the row its login has read. */
  predicate Undisturbed(s: Sys, acts: seq<Act>) {
    acts == [] ||
    (Undisturbed(s, acts[..|acts| - 1]) &&
     var mid, a := DoActs(s, acts[..|acts| - 1]), acts[|acts| - 1];
     a.Check? && a.id in mid.open ==> mid.open[a.id] == mid.row)
  }

  /** The logins of a run one after the other, each at the time of its check. */
  function Serial(s: Sys, acts: seq<Act>): seq<Event> {
    if acts == [] then []
    else
      var init := acts[..|acts| - 1];
      Serial(s, init) +
      match acts[|acts| - 1]
      case Open(_, _) => []
      case Clear(at) => [ResetPassword(at)]
      case Check(id, ok, writtenAt) => if id in DoActs(s, init).open then [Login(ok, writtenAt, writtenAt)] else []
  }

  /** When the failed checks since the last success or reset were recorded. */
  function FailTimes(s: Sys, acts: seq<Act>): seq<int> {
    if acts == [] then []
    else
      var init := acts[..|acts| - 1];
      match acts[|acts| - 1]
      case Open(_, _) => FailTimes(s, init)
      case Clear(_) => []
      case Check(id, ok, writtenAt) =>
        if id !in DoActs(s, init).open then FailTimes(s, init) else if ok then [] else FailTimes(s, init) + [writtenAt]
  }

  predicate PastLock(u: UserRow, now: int) {
    !Locked(u, now)
  }

  lemma {:induction false} OpenWasUnlocked(s: Sys, acts: seq<Act>, now: int)
    requires s.open == map[] && InTime(acts) && (acts != [] ==> TimeOf(acts[|acts| - 1]) <= now)
    ensures forall id :: id in DoActs(s, acts).open ==> PastLock(DoActs(s, acts).open[id], now)
  {
    if acts == [] {
    } else {
      var init := acts[..|acts| - 1];
      assert forall i :: 0 <= i < |init| ==> init[i] == acts[i];
      if |acts| > 1 { assert TimeOf(acts[|acts| - 2]) <= TimeOf(acts[|acts| - 2 + 1]); }
      OpenWasUnlocked(s, init, now);
    }
  }

  lemma OneMoreEvent(es: seq<Event>, e: Event)
    ensures Run(es + [e]) == Next(Run(es), e)
    ensures Failures(es + [e]) == AddFailure(Run(es), Failures(es), e)
  {
    assert (es + [e])[..|es + [e]| - 1] == es;
  }

  lemma TimedMore(es: seq<Event>, e: Event)
    requires Timed(es) && Starts(e) <= Ends(e) && (es != [] ==> Ends(es[|es| - 1]) <= Starts(e))
    ensures Timed(es + [e])
  {
  }

  /** Logins that overlap, but do not disturb each other, do what they would do one after the other. */
  lemma {:induction false} UndisturbedIsAtomic(acts: seq<Act>)
    requires var s0 := Sys(UserRow(0, None), map[]); InTime(acts) && Undisturbed(s0, acts)
    ensures var s0 := Sys(UserRow(0, None), map[]); var es := Serial(s0, acts);
            Timed(es) && (es != [] ==> acts != [] && Ends(es[|es| - 1]) <= TimeOf(acts[|acts| - 1])) &&
            Run(es) == DoActs(s0, acts).row && Failures(es) == FailTimes(s0, acts)
  {
    hide Timed, Run, Failures, InTime;
    var s0 := Sys(UserRow(0, None), map[]);
    if acts == [] {
      NoEvents();
    } else {
      var init, a := acts[..|acts| - 1], acts[|acts| - 1];
      InTimeInit(acts);
      UndisturbedIsAtomic(init);
      var es, mid := Serial(s0, init), DoActs(s0, init);
      assert es + [] == es;
      match a
      case Open(_, _) =>
      case Clear(at) =>
        OneMoreEvent(es, ResetPassword(at));
        TimedMore(es, ResetPassword(at));
      case Check(id, ok, writtenAt) =>
        if id in mid.open {
          OpenWasUnlocked(s0, init, writtenAt);
          assert PastLock(mid.open[id], writtenAt);
          OneMoreEvent(es, Login(ok, writtenAt, writtenAt));
          TimedMore(es, Login(ok, writtenAt, writtenAt));
        }
    }
  }

  lemma NoEvents()
    ensures Timed([]) && Run([]) == UserRow(0, None) && Failures([]) == []
  {
  }

  lemma InTimeInit(acts: seq<Act>)
    requires InTime(acts) && acts != []
    ensures InTime(acts[..|acts| - 1]) && (|acts| > 1 ==> TimeOf(acts[|acts| - 2]) <= TimeOf(acts[|acts| - 1]))
  {
    var init := acts[..|acts| - 1];
    forall i | 0 <= i < |init| - 1
      ensures TimeOf(init[i]) <= TimeOf(init[i + 1])
    {
      assert init[i] == acts[i] && init[i + 1] == acts[i + 1];
    }
    if |acts| > 1 { assert TimeOf(acts[|acts| - 2]) <= TimeOf(acts[|acts| - 2 + 1]); }
  }

  /** So their n-th failed check, too, comes at least (n - 5) * 15 minutes after the fifth, and the row
      tells them all. */
  lemma UndisturbedChecksAreBounded(acts: seq<Act>, n: nat)
    requires InTime(acts) && Undisturbed(Sys(UserRow(0, None), map[]), acts)
    requires MAX_ATTEMPTS <= n <= |FailTimes(Sys(UserRow(0, None), map[]), acts)|
    ensures var fs := FailTimes(Sys(UserRow(0, None), map[]), acts);
            fs[4] + (n - MAX_ATTEMPTS) * LOCK_MS <= fs[n - 1] &&
            Tells(DoActs(Sys(UserRow(0, None), map[]), acts).row, fs)
  {
    hide Timed, Run, Failures, InTime, Undisturbed, DoActs, FailTimes, Tells;
    UndisturbedIsAtomic(acts);
    var es := Serial(Sys(UserRow(0, None), map[]), acts);
    FailedChecksAreBounded(es, n);
    RowTellsFailures(es);
  }
}
