/**
 * The remote Experience collection as the reconciler sees it: a map from
 * document id to stored record, the calls the form issues against it, and
 * the sequential execution of a list of calls that stops at the first one
 * that fails.
 */
module ExperienceStore {
  import opened Optional

  /** Start and end dates are opaque to the form: it copies them and never inspects them. */
  datatype Instant = Instant(raw: string)

  /** The five fields a user edits on one experience entry (interfaces/experience.ts). */
  datatype Fields = Fields(company: string, title: string, description: string, start: Instant, end: Instant)

  /** A stored experience document, without its `$id`. */
  datatype Stored = Stored(fields: Fields, creator: string, portfolios: Option<string>)

  /** A document as loaded into the form's `data` prop: its `$id` and the fields the form reads. */
  datatype Document = Document(id: string, fields: Fields)

  /** What `ID.unique()` hands out: a non-empty (hence truthy) string. */
  type UniqueId = s: string | s != "" witness "0"

  /** One remote call issued by the form, in the order it is issued. */
  datatype Call =
    | GetAccount
    | Delete(id: string)
    | Update(id: string, fields: Fields)
    | Create(id: string, doc: Stored)

  /** The store's own preconditions: delete and update need the document, create needs a free id. */
  predicate Accepts(docs: map<string, Stored>, c: Call) {
    match c
    case GetAccount => true
    case Delete(id) => id in docs
    case Update(id, _) => id in docs
    case Create(id, _) => id !in docs
  }

  /** The effect of an accepted call. An update overwrites the five fields it carries and keeps the rest. */
  function Apply(docs: map<string, Stored>, c: Call): map<string, Stored>
    requires Accepts(docs, c)
  {
    match c
    case GetAccount => docs
    case Delete(id) => docs - {id}
    case Update(id, f) => docs[id := docs[id].(fields := f)]
    case Create(id, d) => docs[id := d]
  }

  /**
   * The call at position `pos` of the call log succeeds unless the environment
   * makes it fail there (network, permission, ...) or the store refuses it.
   */
  predicate Succeeds(docs: map<string, Stored>, c: Call, pos: nat, faults: set<nat>) {
    pos !in faults && Accepts(docs, c)
  }

  /**
   * The outcome of running a list of calls: the store afterwards, how many
   * calls succeeded, and whether all of them did. When `!ok`, the call at
   * index `done` failed and nothing after it was issued.
   */
  datatype Run = Run(docs: map<string, Stored>, done: nat, ok: bool) {
    /** Number of calls issued: the successful ones plus the failing one. */
    function Issued(): nat {
      if ok then done else done + 1
    }
  }

  /**
   * Issues the first `n` of `calls` one at a time, the first at log position
   * `base`, and stops at the first failure; earlier effects stay in place.
   */
  function Exec(docs: map<string, Stored>, calls: seq<Call>, n: nat, base: nat, faults: set<nat>): (r: Run)
    requires n <= |calls|
    ensures r.done <= n
    ensures r.ok <==> r.done == n
    decreases n
  {
    if n == 0 then Run(docs, 0, true)
    else
      var prev := Exec(docs, calls, n - 1, base, faults);
      var c := calls[n - 1];
      if !prev.ok then prev
      else if Succeeds(prev.docs, c, base + n - 1, faults) then Run(Apply(prev.docs, c), prev.done + 1, true)
      else Run(prev.docs, prev.done, false)
  }

  /**
   * After a failure, the calls before the failing one ran cleanly and left the
   * store as the whole run does, and the failing call was refused in that state.
   */
  lemma {:induction false} FailureIsRefusal(docs: map<string, Stored>, calls: seq<Call>, n: nat, base: nat,
                                            faults: set<nat>)
    requires n <= |calls| && !Exec(docs, calls, n, base, faults).ok
    ensures var r := Exec(docs, calls, n, base, faults);
            && r.done < n
            && Exec(docs, calls, r.done, base, faults) == Run(r.docs, r.done, true)
            && !Succeeds(r.docs, calls[r.done], base + r.done, faults)
    decreases n
  {
    if Exec(docs, calls, n - 1, base, faults).ok {
      assert Exec(docs, calls, n - 1, base, faults).done == n - 1;
    } else {
      FailureIsRefusal(docs, calls, n - 1, base, faults);
    }
  }

  /** A run that reached index `t` cleanly takes one more step when the call there succeeds. */
  lemma ExecAdvance(docs: map<string, Stored>, calls: seq<Call>, base: nat, faults: set<nat>, t: nat, now: map<string, Stored>)
    requires t < |calls| && Exec(docs, calls, t, base, faults) == Run(now, t, true)
    requires Succeeds(now, calls[t], base + t, faults)
    ensures Exec(docs, calls, t + 1, base, faults) == Run(Apply(now, calls[t]), t + 1, true)
  {
  }

  /**
   * A run that reached index `t` cleanly ends there, store unchanged, when the
   * call there fails: no later call is issued.
   */
  lemma {:induction false} ExecHalt(docs: map<string, Stored>, calls: seq<Call>, n: nat, base: nat, faults: set<nat>,
                                    t: nat, now: map<string, Stored>)
    requires t < n <= |calls| && Exec(docs, calls, t, base, faults) == Run(now, t, true)
    requires !Succeeds(now, calls[t], base + t, faults)
    ensures Exec(docs, calls, n, base, faults) == Run(now, t, false)
    decreases n
  {
    if n > t + 1 {
      ExecHalt(docs, calls, n - 1, base, faults, t, now);
    }
  }

  /** In a run that succeeds throughout, each call succeeds in the state the calls before it left. */
  lemma ExecOkStep(docs: map<string, Stored>, calls: seq<Call>, base: nat, faults: set<nat>, t: nat, now: map<string, Stored>)
    requires Exec(docs, calls, |calls|, base, faults).ok
    requires t < |calls| && Exec(docs, calls, t, base, faults) == Run(now, t, true)
    ensures Succeeds(now, calls[t], base + t, faults)
    ensures Exec(docs, calls, t + 1, base, faults) == Run(Apply(now, calls[t]), t + 1, true)
  {
    if !Succeeds(now, calls[t], base + t, faults) {
      ExecHalt(docs, calls, |calls|, base, faults, t, now);
    }
  }

  /** A run whose second call deletes a document the store does not hold fails on its first or second call. */
  lemma ExecDeleteOfMissing(docs: map<string, Stored>, calls: seq<Call>, base: nat, faults: set<nat>)
    requires |calls| >= 2 && calls[0] == GetAccount && calls[1].Delete? && calls[1].id !in docs
    ensures var r := Exec(docs, calls, |calls|, base, faults);
            !r.ok && r.done <= 1
  {
    if Succeeds(docs, calls[0], base, faults) {
      ExecAdvance(docs, calls, base, faults, 0, docs);
      ExecHalt(docs, calls, |calls|, base, faults, 1, docs);
    } else {
      ExecHalt(docs, calls, |calls|, base, faults, 0, docs);
    }
  }

  /**
   * The calls from index `t` up to `n` of a run keep `x` out of the store,
   * unless one of them creates `x`; a failure on the way changes nothing.
   */
  lemma {:induction false} StaysAbsent(docs: map<string, Stored>, calls: seq<Call>, n: nat, base: nat,
                                       faults: set<nat>, x: string, t: nat)
    requires t <= n <= |calls|
    requires x !in Exec(docs, calls, t, base, faults).docs
    requires forall s :: t <= s < n ==> !(calls[s].Create? && calls[s].id == x)
    ensures x !in Exec(docs, calls, n, base, faults).docs
    decreases n
  {
    if n > t {
      StaysAbsent(docs, calls, n - 1, base, faults, x, t);
    }
  }

  /**
   * A run that succeeds throughout, whose second call deletes `x` and none of
   * whose calls creates `x`, leaves the store without `x`.
   */
  lemma ExecDeletedStaysAbsent(docs: map<string, Stored>, calls: seq<Call>, base: nat, faults: set<nat>)
    requires Exec(docs, calls, |calls|, base, faults).ok
    requires |calls| >= 2 && calls[0] == GetAccount && calls[1].Delete?
    requires forall s :: 0 <= s < |calls| ==> !(calls[s].Create? && calls[s].id == calls[1].id)
    ensures calls[1].id !in Exec(docs, calls, |calls|, base, faults).docs
  {
    ExecOkStep(docs, calls, base, faults, 0, docs);
    ExecOkStep(docs, calls, base, faults, 1, docs);
    StaysAbsent(docs, calls, |calls|, base, faults, calls[1].id, 2);
  }

  /**
   * The remote side of the form: the Experience collection, the account
   * lookup and `ID.unique()`. Every call is appended to `log`, whether or
   * not it succeeds.
   */
  class Backend {
    var docs: map<string, Stored>
    var log: seq<Call>
    /** Log positions at which the environment makes a call fail. */
    const faults: set<nat>
    /** The id `auth_service.getAccount()` reports. */
    const account: string
    /** The id `ID.unique()` produces for a create issued at a given log position. */
    const unique: nat -> UniqueId

    constructor (docs: map<string, Stored>, faults: set<nat>, account: string, unique: nat -> UniqueId)
      ensures this.docs == docs && log == []
      ensures this.faults == faults && this.account == account && this.unique == unique
    {
      this.docs := docs;
      this.log := [];
      this.faults := faults;
      this.account := account;
      this.unique := unique;
    }

    /** Issues one call: it is logged, and it changes the store only when it succeeds. */
    method Issue(c: Call) returns (ok: bool)
      modifies this
      ensures log == old(log) + [c]
      ensures ok == Succeeds(old(docs), c, |old(log)|, faults)
      ensures docs == if ok then Apply(old(docs), c) else old(docs)
    {
      ok := Succeeds(docs, c, |log|, faults);
      if ok {
        docs := Apply(docs, c);
      }
      log := log + [c];
    }
  }
}
