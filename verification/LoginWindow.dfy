// The login limiter: a counter per email over a window that starts with its
// first attempt, reset by the first attempt after the window, deleted by a
// successful login and by maintenance once it is over.
module LoginWindow {
  import opened Wrappers

  const WINDOW: int := 15 * 60 * 1_000_000   // microseconds, the database's resolution
  const MAX_ATTEMPTS: nat := 5
  const MAX_INTEGER: nat := 0x7fff_ffff

  datatype Row = Row(attempts: nat, started: int)

  type Table = map<string, Row>

  // What an attempt is told: go on to the password, wait, or the counting
  // statement failed.
  datatype Verdict = Checked | Limited | Failed

  // What looking up the owner of an address gives, and whether the password
  // matches.
  datatype Lookup = LookupFailed | Unknown | Account(matches: bool)

  datatype LoginError = StatementFailed | LoginLimited | InvalidCredentials

  datatype Op =
    | Attempt(email: string)
    | Succeed(email: string)    // the delete after a password matched
    | Clean                     // maintenance

  datatype Step = Step(now: int, op: Op)

  predicate Over(row: Row, now: int) {
    row.started < now - WINDOW
  }

  function Counted(table: Table, email: string, now: int): Option<Row> {
    if email !in table || Over(table[email], now) then Some(Row(1, now))
    else if table[email].attempts + 1 > MAX_INTEGER then None
    else Some(table[email].(attempts := table[email].attempts + 1))
  }

  function Judge(counted: Option<Row>): Verdict {
    match counted
    case None => Failed
    case Some(row) => if row.attempts > MAX_ATTEMPTS then Limited else Checked
  }

  function Cleaned(table: Table, now: int): Table {
    map email | email in table && !Over(table[email], now) :: table[email]
  }

  function Apply(table: Table, step: Step): Table {
    match step.op
    case Attempt(email) =>
      (match Counted(table, email, step.now)
       case None => table
       case Some(row) => table[email := row])
    case Succeed(email) => table - {email}
    case Clean => Cleaned(table, step.now)
  }

  // An attempt opens a new window when none is open: the last one began more
  // than fifteen minutes ago.
  predicate OpensWindow(table: Table, email: string, now: int) {
    email !in table || table[email].started < now - 900_000_000
  }

  // Which attempt of its window this one would be.
  function Nth(table: Table, email: string, now: int): int {
    if OpensWindow(table, email, now) then 1 else table[email].attempts + 1
  }

  // The table once the attempt is counted.
  function WithAttempt(table: Table, email: string, now: int): Table
    requires Nth(table, email, now) >= 0
  {
    table[email := if OpensWindow(table, email, now) then Row(1, now)
                   else Row(table[email].attempts + 1, table[email].started)]
  }

  class LoginLimiter {
    var now: int
    var table: Table

    ghost predicate Valid()
      reads this
    {
      Sane(table, now)
    }

    constructor (now: int)
      ensures Valid() && table == map[] && this.now == now
    {
      this.now, this.table := now, map[];
    }

    method Wait(now: int)
      requires Valid() && this.now <= now
      modifies this`now
      ensures Valid() && this.now == now
    {
      this.now := now;
    }

    method CountAttempt(email: string) returns (verdict: Verdict)
      requires Valid()
      modifies this`table
      ensures Valid() && table == Apply(old(table), Step(now, Attempt(email)))
      ensures verdict == Judge(Counted(old(table), email, now))
      ensures verdict == Checked <==> Nth(old(table), email, now) <= 5
      ensures verdict == Limited <==> 5 < Nth(old(table), email, now) <= 2_147_483_647
      ensures table == if Nth(old(table), email, now) > 2_147_483_647 then old(table)
                       else WithAttempt(old(table), email, now)
    {
      var row := Row(1, now);
      if email in table {
        row := table[email];
        if row.started < now - WINDOW {
          row := Row(1, now);
        } else if row.attempts == MAX_INTEGER {
          return Failed;
        } else {
          row := row.(attempts := row.attempts + 1);
        }
      }
      table := table[email := row];
      return if row.attempts > MAX_ATTEMPTS then Limited else Checked;
    }

    // A whole login with nothing in between. Addresses are brought to a normal
    // form first; an unknown address fails like a wrong password. The session
    // may fail to be stored; a failure to forget the attempts is ignored.
    method Login(address: string, normal: string -> string, find: string -> Lookup, opens: bool, forgets: bool)
      returns (r: Result<(), LoginError>)
      requires Valid()
      modifies this`table
      ensures Valid()
      ensures r.Ok? <==> && Nth(old(table), normal(address), now) <= 5
                         && find(normal(address)) == Account(true) && opens
      ensures r == Err(InvalidCredentials) <==>
                && Nth(old(table), normal(address), now) <= 5
                && (find(normal(address)) == Unknown || find(normal(address)) == Account(false))
      ensures r == Err(LoginLimited) <==> 5 < Nth(old(table), normal(address), now) <= 2_147_483_647
      ensures r == Err(StatementFailed) <==>
                || Nth(old(table), normal(address), now) > 2_147_483_647
                || (Nth(old(table), normal(address), now) <= 5
                    && (find(normal(address)) == LookupFailed || (find(normal(address)) == Account(true) && !opens)))
      ensures table == if Nth(old(table), normal(address), now) > 2_147_483_647 then old(table)
                       else if r.Ok? && forgets then old(table) - {normal(address)}
                       else WithAttempt(old(table), normal(address), now)
    {
      var email := normal(address);
      var verdict := CountAttempt(email);
      if verdict.Failed? {
        return Err(StatementFailed);
      }
      if verdict.Limited? {
        return Err(LoginLimited);
      }
      match find(email) {
        case LookupFailed => return Err(StatementFailed);
        case Unknown => return Err(InvalidCredentials);
        case Account(matches) =>
          if !matches {
            return Err(InvalidCredentials);
          }
      }
      if !opens {
        return Err(StatementFailed);
      }
      if forgets {
        ForgetAttempts(email);
      }
      return Ok(());
    }

    method ForgetAttempts(email: string)
      requires Valid()
      modifies this`table
      ensures Valid() && table == Apply(old(table), Step(now, Succeed(email)))
      ensures table == old(table) - {email}
    {
      table := table - {email};
    }

    method DeleteOldWindows()
      requires Valid()
      modifies this`table
      ensures Valid() && table == Apply(old(table), Step(now, Clean))
      ensures forall email :: email in table <==>
                email in old(table) && old(table)[email].started >= now - 900_000_000
      ensures forall email <- table :: table[email] == old(table)[email]
    {
      var rest := table.Keys;
      ghost var was := table;
      while rest != {}
        invariant rest <= was.Keys && Sane(table, now)
        invariant table == map email | email in was && (email in rest || !Over(was[email], now)) :: was[email]
        decreases rest
      {
        var email :| email in rest;
        if table[email].started < now - WINDOW {
          table := table - {email};
        }
        rest := rest - {email};
      }
    }
  }

  // Every row counts at least one attempt and no window starts in the future.
  ghost predicate Sane(table: Table, now: int) {
    forall email <- table ::
      1 <= table[email].attempts <= MAX_INTEGER && table[email].started <= now
  }

  lemma ApplyKeeps(table: Table, now: int, step: Step)
    requires Sane(table, now) && now <= step.now
    ensures Sane(Apply(table, step), step.now)
  {
  }

  // ---- Runs ----

  predicate InOrder(now: int, steps: seq<Step>)
    decreases |steps|
  {
    steps == [] || (now <= steps[0].now && InOrder(steps[0].now, steps[1..]))
  }

  predicate Within(t: int, a: int) {
    a <= t <= a + WINDOW
  }

  // A step that lets a password be checked for this email inside the closed
  // interval of one window's length that starts at a.
  predicate Checks(table: Table, step: Step, email: string, a: int) {
    step.op == Attempt(email) && Within(step.now, a) && Judge(Counted(table, email, step.now)) == Checked
  }

  function CheckCount(table: Table, steps: seq<Step>, email: string, a: int): nat
    decreases |steps|
  {
    if steps == [] then 0
    else (if Checks(table, steps[0], email, a) then 1 else 0)
         + CheckCount(Apply(table, steps[0]), steps[1..], email, a)
  }

  predicate NoSuccess(steps: seq<Step>, email: string, a: int) {
    forall i :: 0 <= i < |steps| && Within(steps[i].now, a) ==> steps[i].op != Succeed(email)
  }

  // How many more checks the interval can still see: what is left of a window
  // that began before it, and one fresh window.
  function Allowance(table: Table, email: string, now: int, a: int): nat {
    if now > a + WINDOW then 0
    else if now < a then 2 * MAX_ATTEMPTS - 1
    else if email !in table then MAX_ATTEMPTS
    else
      var row := table[email];
      (if row.attempts < MAX_ATTEMPTS then MAX_ATTEMPTS - row.attempts else 0)
      + (if row.started < a then MAX_ATTEMPTS else 0)
  }

  lemma StepSpends(table: Table, now: int, step: Step, email: string, a: int)
    requires Sane(table, now) && now <= step.now
    requires Within(step.now, a) ==> step.op != Succeed(email)
    ensures (if Checks(table, step, email, a) then 1 else 0) + Allowance(Apply(table, step), email, step.now, a)
            <= Allowance(table, email, now, a)
  {
  }

  lemma {:induction false} Bounded(table: Table, now: int, steps: seq<Step>, email: string, a: int)
    requires Sane(table, now) && InOrder(now, steps) && NoSuccess(steps, email, a)
    ensures CheckCount(table, steps, email, a) <= Allowance(table, email, now, a)
    decreases |steps|
  {
    if steps != [] {
      StepSpends(table, now, steps[0], email, a);
      ApplyKeeps(table, now, steps[0]);
      assert forall i :: 0 <= i < |steps| - 1 ==> steps[1..][i] == steps[i + 1];
      Bounded(Apply(table, steps[0]), steps[0].now, steps[1..], email, a);
    }
  }

  // From any state, over any run, at most nine attempts for one email reach
  // the password in any closed interval of fifteen minutes without a success.
  lemma AtMostNine(table: Table, now: int, steps: seq<Step>, email: string, a: int)
    requires Sane(table, now) && InOrder(now, steps) && NoSuccess(steps, email, a)
    ensures CheckCount(table, steps, email, a) <= 9
  {
    Bounded(table, now, steps, email, a);
  }

  // Nine is reached: four attempts left of a window that began one length
  // before the interval, and the five of the next one.

  function Attempts(n: nat, now: int, email: string): seq<Step> {
    if n == 0 then [] else [Step(now, Attempt(email))] + Attempts(n - 1, now, email)
  }

  lemma {:induction false} SameWindow(table: Table, n: nat, now: int, email: string, a: int, rest: seq<Step>)
    requires email in table && !Over(table[email], now) && Within(now, a)
    requires table[email].attempts + n <= MAX_ATTEMPTS
    ensures CheckCount(table, Attempts(n, now, email) + rest, email, a) ==
            n + CheckCount(table[email := table[email].(attempts := table[email].attempts + n)], rest, email, a)
  {
    if n == 0 {
      assert Attempts(n, now, email) + rest == rest;
      assert table[email := table[email]] == table;
    } else {
      var steps := Attempts(n, now, email) + rest;
      assert steps[1..] == Attempts(n - 1, now, email) + rest;
      var next := Apply(table, steps[0]);
      SameWindow(next, n - 1, now, email, a, rest);
      assert next[email := next[email].(attempts := next[email].attempts + (n - 1))] ==
             table[email := table[email].(attempts := table[email].attempts + n)];
    }
  }

  function Burst(email: string, a: int): seq<Step> {
    [Step(a - WINDOW, Attempt(email))]
    + (Attempts(MAX_ATTEMPTS - 1, a, email)
       + ([Step(a + 1, Attempt(email))] + (Attempts(MAX_ATTEMPTS - 1, a + 1, email) + [])))
  }

  lemma NineIsReached(email: string, a: int)
    ensures CheckCount(map[], Burst(email, a), email, a) == 9
  {
    var last := Attempts(MAX_ATTEMPTS - 1, a + 1, email) + [];
    var later := [Step(a + 1, Attempt(email))] + last;
    var begun := Apply(map[], Burst(email, a)[0]);
    assert Burst(email, a)[1..] == Attempts(MAX_ATTEMPTS - 1, a, email) + later;
    SameWindow(begun, MAX_ATTEMPTS - 1, a, email, a, later);
    var full := begun[email := Row(MAX_ATTEMPTS, a - WINDOW)];
    assert later[1..] == last;
    SameWindow(Apply(full, later[0]), MAX_ATTEMPTS - 1, a + 1, email, a, []);
  }

  // ---- Maintenance cannot be noticed ----

  function Verdicts(table: Table, steps: seq<Step>): seq<Verdict>
    decreases |steps|
  {
    if steps == [] then []
    else (if steps[0].op.Attempt? then [Judge(Counted(table, steps[0].op.email, steps[0].now))] else [])
         + Verdicts(Apply(table, steps[0]), steps[1..])
  }

  function WithoutCleaning(steps: seq<Step>): seq<Step> {
    if steps == [] then []
    else (if steps[0].op.Clean? then [] else [steps[0]]) + WithoutCleaning(steps[1..])
  }

  function Live(table: Table, email: string, now: int): Option<Row> {
    if email in table && !Over(table[email], now) then Some(table[email]) else None
  }

  // Two tables that differ only in windows that are over.
  ghost predicate Alike(t: Table, u: Table, now: int) {
    forall email: string :: Live(t, email, now) == Live(u, email, now)
  }

  lemma AlikeLater(t: Table, u: Table, now: int, later: int)
    requires Alike(t, u, now) && now <= later
    ensures Alike(t, u, later)
  {
    forall email: string
      ensures Live(t, email, later) == Live(u, email, later)
    {
      assert Live(t, email, now) == Live(u, email, now);
    }
  }

  lemma AlikeStep(t: Table, u: Table, step: Step)
    requires Alike(t, u, step.now)
    ensures step.op.Attempt? ==> Counted(t, step.op.email, step.now) == Counted(u, step.op.email, step.now)
    ensures Alike(Apply(t, step), if step.op.Clean? then u else Apply(u, step), step.now)
  {
    if step.op.Attempt? {
      assert Live(t, step.op.email, step.now) == Live(u, step.op.email, step.now);
    }
    var t', u' := Apply(t, step), if step.op.Clean? then u else Apply(u, step);
    forall email: string
      ensures Live(t', email, step.now) == Live(u', email, step.now)
    {
      assert Live(t, email, step.now) == Live(u, email, step.now);
    }
  }

  // Deleting old windows, at any times in a run, changes no attempt's verdict.
  lemma {:induction false} CleaningNeverMatters(t: Table, u: Table, now: int, steps: seq<Step>)
    requires Alike(t, u, now) && InOrder(now, steps)
    ensures Verdicts(t, steps) == Verdicts(u, WithoutCleaning(steps))
    decreases |steps|
  {
    if steps != [] {
      var step := steps[0];
      AlikeLater(t, u, now, step.now);
      AlikeStep(t, u, step);
      var fewer := WithoutCleaning(steps);
      if step.op.Clean? {
        assert fewer == WithoutCleaning(steps[1..]);
        CleaningNeverMatters(Apply(t, step), u, step.now, steps[1..]);
      } else {
        assert fewer[1..] == WithoutCleaning(steps[1..]);
        CleaningNeverMatters(Apply(t, step), Apply(u, step), step.now, steps[1..]);
      }
    }
  }
}
