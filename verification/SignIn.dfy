/** Password sign-in: the store accesses of AuthenticatePassword, one at a time. */
module SignIn {
  import opened Common
  import opened Uuid

  type Password = string

  /** A stored hash: the password it encodes, and the salt and parameters chosen for it. */
  datatype Hash = Hash(password: Password, salt: nat)

  predicate Verify(password: Password, hash: Hash) {
    hash.password == password
  }

  /** A completed sign-in. `digest` fingerprints the hash it completed against; `under` is
      that hash, kept as history. */
  datatype Authentication = Authentication(userId: Id, pending: bool, digest: Digest, under: Hash)

  /** A sign-in and where it stands. `current` is the hash it is entitled to finish against. */
  datatype Call =
    | Begun(userId: Id, password: Password)
    | Verified(userId: Id, password: Password, current: Hash)
    | Rehashed(userId: Id, password: Password, current: Hash)
    | Confirming(userId: Id, password: Password, current: Hash)
    | Finalizing(userId: Id, password: Password, current: Hash, attempt: nat)
    | Rechecking(userId: Id, password: Password, current: Hash, attempt: nat)
    | Done(auth: Authentication)
    | Rejected

  /** What a step takes from outside the password record: the lockout, disablement and
      infrastructure checks (`admitted`), whether the hasher asks for a rehash and the salt
      it draws, whether a second factor is active, and whether a commit goes through. */
  datatype Env = Env(admitted: bool, rehash: Option<nat>, secondFactor: bool, commits: bool)

  /** The stored hash after the step, and the call. */
  datatype Progress = Progress(stored: Option<Hash>, call: Call)

  function Grant(fp: Hash -> Digest, userId: Id, pending: bool, hash: Hash): Authentication {
    Authentication(userId, pending, fp(hash), hash)
  }

  /** Re-reads the stored hash: unchanged, moved by a rehash of the same password, or gone. */
  function Confirm(stored: Option<Hash>, password: Password, verified: Hash): (r: Option<Hash>) {
    if stored.None? then None
    else if stored.value == verified then Some(verified)
    else if Verify(password, stored.value) then stored
    else None
  }

  /** One store access of a sign-in, on the user's stored hash. */
  function Step(fp: Hash -> Digest, call: Call, stored: Option<Hash>, env: Env): Progress {
    match call
    case Begun(userId, password) =>
      if stored.None? || !Verify(password, stored.value) || !env.admitted then Progress(stored, Rejected)
      else Progress(stored, Verified(userId, password, stored.value))
    case Verified(userId, password, current) =>
      if env.rehash.None? then Progress(stored, Rehashed(userId, password, current))
      else if stored != Some(current) then Progress(stored, Rehashed(userId, password, current))
      else if !env.commits then Progress(stored, Rejected)
      else
        var renewed := Hash(password, env.rehash.value);
        Progress(Some(renewed), Rehashed(userId, password, renewed))
    case Rehashed(userId, password, current) =>
      if !env.admitted then Progress(stored, Rejected)
      else if env.secondFactor then Progress(stored, Confirming(userId, password, current))
      else Progress(stored, Finalizing(userId, password, current, 0))
    case Confirming(userId, password, current) =>
      var confirmed := Confirm(stored, password, current);
      if confirmed.None? || !env.commits then Progress(stored, Rejected)
      else Progress(stored, Done(Grant(fp, userId, true, confirmed.value)))
    case Finalizing(userId, password, current, attempt) =>
      if stored == Some(current) then
        Progress(stored, if env.commits then Done(Grant(fp, userId, false, current)) else Rejected)
      else if attempt >= 2 then Progress(stored, Rejected)
      else Progress(stored, Rechecking(userId, password, current, attempt))
    case Rechecking(userId, password, current, attempt) =>
      var confirmed := Confirm(stored, password, current);
      Progress(stored, if confirmed.None? then Rejected
                       else Finalizing(userId, password, confirmed.value, attempt + 1))
    case Done(_) => Progress(stored, call)
    case Rejected => Progress(stored, call)
  }

  /** Every hash a running sign-in holds encodes the password it was given. */
  predicate CallOk(fp: Hash -> Digest, call: Call) {
    match call
    case Begun(_, _) => true
    case Verified(_, password, current) => Verify(password, current)
    case Rehashed(_, password, current) => Verify(password, current)
    case Confirming(_, password, current) => Verify(password, current)
    case Finalizing(_, password, current, attempt) => Verify(password, current) && attempt <= 2
    case Rechecking(_, password, current, attempt) => Verify(password, current) && attempt <= 1
    case Done(auth) => auth.digest == fp(auth.under)
    case Rejected => true
  }

  /** A step keeps that, and whatever it writes encodes the password already stored: a
      sign-in never brings a replaced password back. */
  lemma StepKeepsPassword(fp: Hash -> Digest, call: Call, stored: Option<Hash>, env: Env)
    requires CallOk(fp, call)
    ensures var p := Step(fp, call, stored, env);
      && CallOk(fp, p.call)
      && (p.stored != stored ==> stored.Some? && p.stored.Some? && p.stored.value.password == stored.value.password)
  {
  }

  /** A sign-in completes only at an instant when the stored hash verifies the password it
      was given, and the fingerprint it returns is of exactly that hash. */
  lemma CompletionIsCurrent(fp: Hash -> Digest, call: Call, stored: Option<Hash>, env: Env)
    requires CallOk(fp, call) && !call.Done?
    ensures var p := Step(fp, call, stored, env);
      p.call.Done? ==>
        && (call.Confirming? || call.Finalizing?)
        && stored == Some(p.call.auth.under) && Verify(call.password, p.call.auth.under)
        && p.call.auth.digest == fp(stored.value) && p.call.auth.userId == call.userId
        && (p.call.auth.pending <==> call.Confirming?)
  {
  }

  // ----- a whole sign-in against an adversarial store -----

  /** What the k-th store access finds: any stored hash at all, and any environment. */
  datatype Moment = Moment(stored: Option<Hash>, env: Env)

  type World = nat -> Moment

  /** How many store accesses a call still has ahead of it, at most. */
  function Remaining(call: Call): nat {
    match call
    case Begun(_, _) => 8
    case Verified(_, _, _) => 7
    case Rehashed(_, _, _) => 6
    case Confirming(_, _, _) => 1
    case Finalizing(_, _, _, attempt) => if attempt <= 2 then 5 - 2 * attempt else 1
    case Rechecking(_, _, _, attempt) => if attempt <= 1 then 4 - 2 * attempt else 2
    case Done(_) => 0
    case Rejected => 0
  }

  /** The rest of a sign-in that makes its next store access at moment `k`. */
  function Drive(fp: Hash -> Digest, call: Call, world: World, k: nat): Call
    decreases Remaining(call)
  {
    if call.Done? || call.Rejected? then call
    else Drive(fp, Step(fp, call, world(k).stored, world(k).env).call, world, k + 1)
  }

  /** How many of those accesses are finalization attempts. */
  function Attempts(fp: Hash -> Digest, call: Call, world: World, k: nat): nat
    decreases Remaining(call)
  {
    if call.Done? || call.Rejected? then 0
    else
      (if call.Finalizing? then 1 else 0) +
      Attempts(fp, Step(fp, call, world(k).stored, world(k).env).call, world, k + 1)
  }

  lemma NextAccess(fp: Hash -> Digest, call: Call, world: World, k: nat)
    requires !call.Done? && !call.Rejected?
    ensures var next := Step(fp, call, world(k).stored, world(k).env).call;
      && Drive(fp, call, world, k) == Drive(fp, next, world, k + 1)
      && Attempts(fp, call, world, k) == (if call.Finalizing? then 1 else 0) + Attempts(fp, next, world, k + 1)
  {
  }

  /** The finalization attempts a call has left. */
  function Budget(call: Call): nat {
    match call
    case Finalizing(_, _, _, attempt) => if attempt <= 2 then 3 - attempt else 1
    case Rechecking(_, _, _, attempt) => if attempt <= 1 then 2 - attempt else 1
    case Confirming(_, _, _) => 0
    case Done(_) => 0
    case Rejected => 0
    case _ => 3
  }

  lemma {:induction false} AttemptsBounded(fp: Hash -> Digest, call: Call, world: World, k: nat)
    ensures Attempts(fp, call, world, k) <= Budget(call)
    decreases Remaining(call)
  {
    if !call.Done? && !call.Rejected? {
      AttemptsBounded(fp, Step(fp, call, world(k).stored, world(k).env).call, world, k + 1);
    }
  }

  /** Whatever the store does between the accesses, a completed sign-in has a last access at
      which the stored hash verified the password and was the one fingerprinted. */
  lemma {:induction false} DriveIsCurrent(fp: Hash -> Digest, call: Call, world: World, k: nat) returns (last: nat)
    requires CallOk(fp, call) && !call.Done? && !call.Rejected? && Drive(fp, call, world, k).Done?
    ensures k <= last < k + Remaining(call)
    ensures var auth := Drive(fp, call, world, k).auth;
      && world(last).stored == Some(auth.under) && auth.under.password == call.password
      && auth.digest == fp(auth.under) && auth.userId == call.userId
    decreases Remaining(call)
  {
    var next := Step(fp, call, world(k).stored, world(k).env).call;
    StepKeepsPassword(fp, call, world(k).stored, world(k).env);
    if next.Done? {
      CompletionIsCurrent(fp, call, world(k).stored, world(k).env);
      last := k;
    } else {
      last := DriveIsCurrent(fp, next, world, k + 1);
    }
  }

  // ----- the second factor -----

  /** A sign-in past the second-factor read is pending exactly if it is confirming. */
  lemma {:induction false} PendingFromHere(fp: Hash -> Digest, call: Call, world: World, k: nat)
    requires call.Confirming? || call.Finalizing? || call.Rechecking?
    ensures Drive(fp, call, world, k).Done? ==> (Drive(fp, call, world, k).auth.pending <==> call.Confirming?)
    decreases Remaining(call)
  {
    var next := Step(fp, call, world(k).stored, world(k).env).call;
    if !next.Done? && !next.Rejected? {
      PendingFromHere(fp, next, world, k + 1);
    }
  }

  /** Whatever the store does, a sign-in that completes leaves a second factor pending
      exactly if one was active when it looked, and it could look. */
  lemma SecondFactorDecides(fp: Hash -> Digest, userId: Id, password: Password, world: World)
    ensures var end := Drive(fp, Begun(userId, password), world, 0);
      && (end.Done? || end.Rejected?)
      && (end.Done? ==> world(2).env.admitted && (end.auth.pending <==> world(2).env.secondFactor))
  {
    DriveEnds(fp, Begun(userId, password), world, 0);
    var verified := Step(fp, Begun(userId, password), world(0).stored, world(0).env).call;
    NextAccess(fp, Begun(userId, password), world, 0);
    if verified.Verified? {
      var rehashed := Step(fp, verified, world(1).stored, world(1).env).call;
      NextAccess(fp, verified, world, 1);
      if rehashed.Rehashed? {
        var looked := Step(fp, rehashed, world(2).stored, world(2).env).call;
        NextAccess(fp, rehashed, world, 2);
        if !looked.Rejected? {
          PendingFromHere(fp, looked, world, 3);
        }
      }
    }
  }

  lemma {:induction false} DriveEnds(fp: Hash -> Digest, call: Call, world: World, k: nat)
    ensures Drive(fp, call, world, k).Done? || Drive(fp, call, world, k).Rejected?
    decreases Remaining(call)
  {
    if !call.Done? && !call.Rejected? {
      DriveEnds(fp, Step(fp, call, world(k).stored, world(k).env).call, world, k + 1);
    }
  }

  // ----- which sign-ins complete -----

  /** A wrong password, an account without one, a locked or disabled account: rejected at the
      first access, whatever follows. */
  lemma WrongPasswordIsRejected(fp: Hash -> Digest, userId: Id, password: Password, world: World)
    requires world(0).stored.None? || world(0).stored.value.password != password || !world(0).env.admitted
    ensures Drive(fp, Begun(userId, password), world, 0) == Rejected
  {
    assert Step(fp, Begun(userId, password), world(0).stored, world(0).env).call == Rejected;
  }

  /** Nothing but the call itself changes the stored hash, every check passes and every
      commit goes through; the hasher asks for a rehash or not, and a second factor is active
      or not. */
  ghost predicate Undisturbed(world: World, hash: Hash, rehash: Option<nat>, secondFactor: bool) {
    && (forall k :: world(k).env.admitted && world(k).env.commits)
    && world(1).env.rehash == rehash && world(2).env.secondFactor == secondFactor
    && world(0).stored == Some(hash) && world(1).stored == Some(hash)
    && forall k :: k >= 2 ==> world(k).stored == Some(Renewed(hash, rehash))
  }

  function Renewed(hash: Hash, rehash: Option<nat>): Hash {
    if rehash.Some? then Hash(hash.password, rehash.value) else hash
  }

  /** Undisturbed, the stored password signs in: against the renewed hash if there was a
      rehash, and leaving the second factor pending exactly if one is active. */
  lemma UndisturbedCompletes(fp: Hash -> Digest, userId: Id, hash: Hash, world: World, rehash: Option<nat>,
                             secondFactor: bool)
    requires Undisturbed(world, hash, rehash, secondFactor)
    ensures var current := if rehash.Some? then Hash(hash.password, rehash.value) else hash;
      Drive(fp, Begun(userId, hash.password), world, 0) ==
      Done(Authentication(userId, secondFactor, fp(current), current))
  {
    var password, current := hash.password, Renewed(hash, rehash);
    NextAccess(fp, Begun(userId, password), world, 0);
    NextAccess(fp, Verified(userId, password, hash), world, 1);
    NextAccess(fp, Rehashed(userId, password, current), world, 2);
    if secondFactor {
      NextAccess(fp, Confirming(userId, password, current), world, 3);
    } else {
      NextAccess(fp, Finalizing(userId, password, current, 0), world, 3);
    }
  }

  /** A rehash by someone else between the attempts costs a retry and not the sign-in: once
      the stored hash settles on one of the password, with an attempt to spare, it completes
      against that. */
  lemma SettledFinalizes(fp: Hash -> Digest, userId: Id, current: Hash, attempt: nat, settled: Hash, world: World, k: nat)
    requires settled.password == current.password && (attempt < 2 || (attempt == 2 && current == settled))
    requires forall i :: i >= k ==> world(i).stored == Some(settled) && world(i).env.commits
    ensures Drive(fp, Finalizing(userId, current.password, current, attempt), world, k) ==
      Done(Authentication(userId, false, fp(settled), settled))
  {
    var password := current.password;
    NextAccess(fp, Finalizing(userId, password, current, attempt), world, k);
    if current != settled {
      NextAccess(fp, Rechecking(userId, password, current, attempt), world, k + 1);
      NextAccess(fp, Finalizing(userId, password, settled, attempt + 1), world, k + 2);
    }
  }

  /** A rehash that was committed: the moment, the hash it replaced and the one it wrote. */
  datatype Rewrite = Rewrite(moment: nat, replaced: Hash, written: Hash)

  /** The rehash a sign-in commits, if any: its second access, only while the hash verified
      by the first is still in place. */
  function CommittedRehash(fp: Hash -> Digest, userId: Id, password: Password, world: World): Option<Rewrite> {
    var a := Step(fp, Begun(userId, password), world(0).stored, world(0).env);
    if !a.call.Verified? || world(1).env.rehash.None? || world(1).stored != Some(a.call.current) then None
    else
      var b := Step(fp, a.call, world(1).stored, world(1).env);
      if b.call.Rehashed? then Some(Rewrite(1, a.call.current, b.call.current)) else None
  }

  /** AuthenticatePassword, with its retry loop, against a store that may hold anything at
      each access. */
  method AuthenticatePassword(fp: Hash -> Digest, userId: Id, password: Password, world: World)
    returns (outcome: Call, rewrite: Option<Rewrite>, attempts: nat)
    ensures outcome == Drive(fp, Begun(userId, password), world, 0)
    ensures attempts == Attempts(fp, Begun(userId, password), world, 0) && attempts <= 3
    ensures outcome.Done? ==> outcome.auth.userId == userId && (outcome.auth.pending <==> world(2).env.secondFactor)
    ensures outcome.Done? ==> world(2).env.admitted
    ensures outcome.Done? ==> world(0).env.admitted && world(0).stored.Some? && world(0).stored.value.password == password
    ensures !outcome.Done? ==> outcome.Rejected?
    ensures outcome.Done? ==> exists k ::
      k < 8 && world(k).stored == Some(outcome.auth.under) && Verify(password, outcome.auth.under) &&
      outcome.auth.digest == fp(outcome.auth.under)
    ensures rewrite == CommittedRehash(fp, userId, password, world)
    ensures rewrite.Some? ==>
      && world(rewrite.value.moment).stored == Some(rewrite.value.replaced)
      && Verify(password, rewrite.value.replaced) && Verify(password, rewrite.value.written)
  {
    ghost var start := Begun(userId, password);
    AttemptsBounded(fp, start, world, 0);
    SecondFactorDecides(fp, userId, password, world);
    if world(0).stored.None? || world(0).stored.value.password != password || !world(0).env.admitted {
      WrongPasswordIsRejected(fp, userId, password, world);
    }
    if Drive(fp, start, world, 0).Done? {
      ghost var last := DriveIsCurrent(fp, start, world, 0);
    }
    var entitled;
    entitled, rewrite := VerifyAndRehash(fp, userId, password, world);
    if entitled.None? {
      return Rejected, rewrite, 0;
    }
    outcome, attempts := Complete(fp, userId, password, entitled.value, world);
  }

  /** Reads and verifies the stored hash, and rehashes the password if asked to, only while
      the verified hash is still in place. Returns the hash to finish against. */
  method VerifyAndRehash(fp: Hash -> Digest, userId: Id, password: Password, world: World)
    returns (entitled: Option<Hash>, rewrite: Option<Rewrite>)
    ensures var start, next := Begun(userId, password),
                               if entitled.Some? then Rehashed(userId, password, entitled.value) else Rejected;
      && Drive(fp, start, world, 0) == Drive(fp, next, world, 2)
      && Attempts(fp, start, world, 0) == Attempts(fp, next, world, 2)
    ensures rewrite == CommittedRehash(fp, userId, password, world)
    ensures rewrite.Some? ==>
      && world(rewrite.value.moment).stored == Some(rewrite.value.replaced)
      && Verify(password, rewrite.value.replaced) && Verify(password, rewrite.value.written)
  {
    var seen := world(0);
    NextAccess(fp, Begun(userId, password), world, 0);
    if seen.stored.None? || !Verify(password, seen.stored.value) || !seen.env.admitted {
      return None, None;
    }
    var hash := seen.stored.value;
    seen := world(1);
    NextAccess(fp, Verified(userId, password, hash), world, 1);
    if seen.env.rehash.Some? && seen.stored == Some(hash) {
      if !seen.env.commits {
        return None, None;
      }
      var renewed := Hash(password, seen.env.rehash.value);
      return Some(renewed), Some(Rewrite(1, hash, renewed));
    }
    return Some(hash), None;
  }

  /** Looks for an active second factor: a pending sign-in only re-reads the hash, any
      other finalizes against it. */
  method Complete(fp: Hash -> Digest, userId: Id, password: Password, current: Hash, world: World)
    returns (outcome: Call, attempts: nat)
    ensures outcome == Drive(fp, Rehashed(userId, password, current), world, 2)
    ensures attempts == Attempts(fp, Rehashed(userId, password, current), world, 2)
  {
    var seen := world(2);
    NextAccess(fp, Rehashed(userId, password, current), world, 2);
    if !seen.env.admitted {
      return Rejected, 0;
    }
    if seen.env.secondFactor {
      seen := world(3);
      NextAccess(fp, Confirming(userId, password, current), world, 3);
      var confirmed := Confirm(seen.stored, password, current);
      if confirmed.None? || !seen.env.commits {
        return Rejected, 0;
      }
      return Done(Grant(fp, userId, true, confirmed.value)), 0;
    }
    outcome, attempts := Finalize(fp, userId, password, current, world, 3);
  }

  /** The retry loop: a conflict from a rehash of the same password is retried against the
      refreshed hash, at most twice. */
  method Finalize(fp: Hash -> Digest, userId: Id, password: Password, verified: Hash, world: World, start: nat)
    returns (outcome: Call, attempts: nat)
    ensures outcome == Drive(fp, Finalizing(userId, password, verified, 0), world, start)
    ensures attempts == Attempts(fp, Finalizing(userId, password, verified, 0), world, start)
  {
    var current, attempt, k := verified, 0, start;
    ghost var whole := Finalizing(userId, password, verified, 0);
    while true
      invariant attempt <= 2
      invariant Drive(fp, Finalizing(userId, password, current, attempt), world, k) == Drive(fp, whole, world, start)
      invariant attempt + Attempts(fp, Finalizing(userId, password, current, attempt), world, k) ==
        Attempts(fp, whole, world, start)
      decreases 2 - attempt
    {
      ghost var p := Step(fp, Finalizing(userId, password, current, attempt), world(k).stored, world(k).env);
      NextAccess(fp, Finalizing(userId, password, current, attempt), world, k);
      if world(k).stored == Some(current) {
        return if world(k).env.commits then Done(Grant(fp, userId, false, current)) else Rejected, attempt + 1;
      }
      if attempt >= 2 {
        return Rejected, attempt + 1;
      }
      var confirmed := Confirm(world(k + 1).stored, password, current);
      NextAccess(fp, p.call, world, k + 1);
      if confirmed.None? {
        return Rejected, attempt + 1;
      }
      current, attempt, k := confirmed.value, attempt + 1, k + 2;
    }
  }
}
