/** Consumer tokens of `sharing/tokens.rs`: issue, resolve, revoke and list over an encrypted
    store keyed by a digest of the secret. */
module Tokens {
  import opened Wrappers
  import opened Ordering
  import opened TextGuarantees
  import opened KnowledgeTypes
  import opened KnowledgeSharing

  datatype Record = Record(id: string, granted: set<Category>, issuedAt: Time, revoked: bool)

  /** A stored entry is one of ours, or something that cannot be parsed. */
  datatype Entry = Good(record: Record) | Corrupt

  type Records = map<string, Entry>

  datatype TokenInfo = TokenInfo(id: string, granted: set<Category>, issuedAt: Time)

  /** How a store call ends: well, refused by a locked vault, or broken; a broken write may
      have taken effect all the same. */
  datatype Fault = Fine | Refuses | Breaks(took: bool)

  datatype Access = Listing | Reading(key: string) | Writing(key: string)

  /** What befalls an access during the n-th operation. No operation makes one access twice,
      so every pattern of failures is such a schedule. */
  type Schedule = (nat, Access) -> Fault

  datatype TokenError = VaultLocked | StoreBroken | Unparseable

  function Consumer(id: string, granted: set<Category>): Token {
    Token(id, granted, false)
  }

  predicate IsLive(e: Entry) {
    e.Good? && !e.record.revoked
  }

  predicate IsLiveFor(e: Entry, id: string) {
    IsLive(e) && e.record.id == id
  }

  function InfoOf(e: Entry): TokenInfo
    requires e.Good?
  {
    TokenInfo(e.record.id, e.record.granted, e.record.issuedAt)
  }

  // ---- the operations on values ---------------------------------------------------------

  function Issued(records: Records, key: string, id: string, granted: set<Category>, now: Time): Records {
    records[key := Good(Record(id, granted, now, false))]
  }

  function Resolved(records: Records, key: string): Result<Option<Token>, TokenError> {
    if key !in records then Ok(None)
    else if records[key].Corrupt? then Err(Unparseable)
    else if records[key].record.revoked then Ok(None)
    else Ok(Some(Consumer(records[key].record.id, records[key].record.granted)))
  }

  /** The live records of `id` among `keys` are flipped. */
  function Revoked(records: Records, id: string, keys: set<string>): Records {
    map k | k in records ::
      if k in keys && IsLiveFor(records[k], id) then Good(records[k].record.(revoked := true)) else records[k]
  }

  /** The records whose read breaks during operation `n`. */
  function Broken(faults: Schedule, n: nat, records: Records): set<string> {
    set k | k in records && faults(n, Reading(k)).Breaks?
  }

  /** At this record a revocation of `id` gives up: the vault is locked, or the write fails. */
  predicate Stops(faults: Schedule, n: nat, records: Records, id: string, k: string)
    requires k in records
  {
    || faults(n, Reading(k)).Refuses?
    || (faults(n, Reading(k)).Fine? && IsLiveFor(records[k], id) && !faults(n, Writing(k)).Fine?)
  }

  /** A revocation gets to the end of its scan. */
  predicate Succeeds(faults: Schedule, n: nat, records: Records, id: string) {
    faults(n, Listing).Fine? && forall k | k in records :: !Stops(faults, n, records, id, k)
  }

  /** It finds a live record of `id` that it can read. */
  ghost predicate FindsSome(faults: Schedule, n: nat, records: Records, id: string) {
    exists k :: k in records && k !in Broken(faults, n, records) && IsLiveFor(records[k], id)
  }

  predicate IssuedLater(a: TokenInfo, b: TokenInfo) {
    a.issuedAt > b.issuedAt || (a.issuedAt == b.issuedAt && StrLe(a.id, b.id))
  }

  lemma IssueOrderIsTotal()
    ensures TotalPreorder(IssuedLater)
  {
    StrLeTotalOrder();
  }

  ghost function Infos(records: Records, keys: seq<string>): seq<TokenInfo>
    requires forall k | k in keys :: k in records && records[k].Good?
  {
    seq(|keys|, i requires 0 <= i < |keys| => InfoOf(records[keys[i]]))
  }

  /** The live tokens outside `skipped`, each once, newest first and then by id. */
  ghost predicate IsLiveList(records: Records, skipped: set<string>, out: seq<TokenInfo>) {
    && SortedBy(out, IssuedLater)
    && exists keys: seq<string> ::
         && NoDup(keys) && (forall k :: k in keys <==> k in records && k !in skipped && IsLive(records[k]))
         && multiset(out) == multiset(Infos(records, keys))
  }

  // ---- the store ---------------------------------------------------------------------------

  class TokenStore {
    /** base64url(SHA-256(secret)) */
    const digest: string -> string
    const faults: Schedule
    var records: Records
    /** The number of operations so far. */
    var calls: nat

    constructor (digest: string -> string, faults: Schedule, found: Records)
      ensures records == found && calls == 0 && this.digest == digest && this.faults == faults
    {
      this.digest, this.faults, records, calls := digest, faults, found, 0;
    }

    static function ErrorOf(f: Fault): TokenError {
      if f.Refuses? then VaultLocked else StoreBroken
    }

    /** Mint a token for a fresh secret. The write may fail and have taken effect. */
    method Issue(id: string, granted: set<Category>, secret: string, now: Time)
      returns (r: Result<(string, string), TokenError>)
      modifies `records, `calls
      ensures calls == old(calls) + 1
      ensures var f := faults(old(calls), Writing(digest(secret)));
        && r == (if f.Fine? then Ok((id, secret)) else Err(if f.Refuses? then VaultLocked else StoreBroken))
        && records == if f.Fine? || (f.Breaks? && f.took) then Issued(old(records), digest(secret), id, granted, now)
                      else old(records)
    {
      var f := faults(calls, Writing(digest(secret)));
      calls := calls + 1;
      if f.Fine? || (f.Breaks? && f.took) {
        records := records[digest(secret) := Good(Record(id, granted, now, false))];
      }
      if !f.Fine? { return Err(ErrorOf(f)); }
      r := Ok((id, secret));
    }

    method Resolve(secret: string) returns (r: Result<Option<Token>, TokenError>)
      modifies `calls
      ensures calls == old(calls) + 1
      ensures var f := faults(old(calls), Reading(digest(secret)));
        r == if f.Fine? then Resolved(records, digest(secret)) else Err(if f.Refuses? then VaultLocked else StoreBroken)
    {
      var f := faults(calls, Reading(digest(secret)));
      calls := calls + 1;
      if !f.Fine? { return Err(ErrorOf(f)); }
      if digest(secret) !in records { return Ok(None); }
      var e := records[digest(secret)];
      if e.Corrupt? { return Err(Unparseable); }
      if e.record.revoked { return Ok(None); }
      r := Ok(Some(Consumer(e.record.id, e.record.granted)));
    }

    /** Flip every live record of `id`. Entries that do not parse are passed over, and so are
        those whose read breaks. `missed` holds what the scan did not reach: after a success,
        exactly the records whose read broke. */
    method Revoke(id: string) returns (r: Result<bool, TokenError>, ghost missed: set<string>)
      modifies `records, `calls
      ensures calls == old(calls) + 1
      ensures records == Revoked(old(records), id, old(records).Keys - missed)
      ensures r.Ok? <==> Succeeds(faults, old(calls), old(records), id)
      ensures r.Ok? ==> missed == Broken(faults, old(calls), old(records))
      ensures r.Ok? ==> (r.value <==> FindsSome(faults, old(calls), old(records), id))
      ensures faults(old(calls), Listing).Refuses? ==> r == Err(VaultLocked) && missed == old(records).Keys
      ensures faults(old(calls), Listing).Breaks? ==> r == Err(StoreBroken) && missed == old(records).Keys
      ensures r.Err? ==> !r.error.Unparseable?
    {
      var n := calls;
      calls := calls + 1;
      ghost var before, broken := records, Broken(faults, n, records);
      missed := before.Keys;
      RevokedNone(records, id);
      if !faults(n, Listing).Fine? { return Err(ErrorOf(faults(n, Listing))), missed; }
      var any := false;
      var todo := records.Keys;
      assert before.Keys - (todo + broken) == {};
      while todo != {}
        invariant calls == n + 1 && todo <= before.Keys
        invariant records == Revoked(before, id, before.Keys - (todo + broken))
        invariant forall k | k in before && k !in todo :: !Stops(faults, n, before, id, k)
        invariant any <==> exists k :: k in before && k !in todo && k !in broken && IsLiveFor(before[k], id)
        decreases todo
      {
        var k :| k in todo;
        missed := todo + broken;
        RevokedMore(before, id, broken, todo, k);
        todo := todo - {k};
        var f := faults(n, Reading(k));
        if f.Refuses? { return Err(VaultLocked), missed; }
        if f.Breaks? { continue; }
        var e := records[k];
        if e.Good? && e.record.id == id && !e.record.revoked {
          f := faults(n, Writing(k));
          if f.Fine? || (f.Breaks? && f.took) {
            records := records[k := Good(e.record.(revoked := true))];
            missed := todo + broken;
          }
          if !f.Fine? { return Err(ErrorOf(f)), missed; }
          any := true;
        }
      }
      missed := broken;
      assert {} + broken == broken;
      r := Ok(any);
    }

    /** The live tokens that can be read, newest first. */
    method List() returns (r: Result<seq<TokenInfo>, TokenError>)
      modifies `calls
      ensures calls == old(calls) + 1
      ensures r.Ok?
        <==> faults(old(calls), Listing).Fine? && forall k | k in records :: !faults(old(calls), Reading(k)).Refuses?
      ensures r.Ok? ==> IsLiveList(records, Broken(faults, old(calls), records), r.value)
      ensures r.Err? ==> r.error == if faults(old(calls), Listing).Breaks? then StoreBroken else VaultLocked
    {
      var n := calls;
      calls := calls + 1;
      if !faults(n, Listing).Fine? { return Err(ErrorOf(faults(n, Listing))); }
      var out: seq<TokenInfo> := [];
      ghost var keys: seq<string> := [];
      var todo := records.Keys;
      while todo != {}
        invariant todo <= records.Keys
        invariant forall k | k in records && k !in todo :: !faults(n, Reading(k)).Refuses?
        invariant NoDup(keys)
        invariant forall k ::
          k in keys <==> k in records && k !in todo && !faults(n, Reading(k)).Breaks? && IsLive(records[k])
        invariant out == Infos(records, keys)
        decreases todo
      {
        var k :| k in todo;
        todo := todo - {k};
        var f := faults(n, Reading(k));
        if f.Refuses? { return Err(VaultLocked); }
        if f.Breaks? { continue; }
        var e := records[k];
        if e.Good? && !e.record.revoked {
          out := out + [TokenInfo(e.record.id, e.record.granted, e.record.issuedAt)];
          keys := keys + [k];
        }
      }
      assert forall k :: k in keys <==> k in records && k !in Broken(faults, n, records) && IsLive(records[k]);
      SortPermutes(out, IssuedLater);
      IssueOrderIsTotal();
      SortSorts(out, IssuedLater);
      r := Ok(Sort(out, IssuedLater));
    }
  }

  lemma RevokedNone(records: Records, id: string)
    ensures Revoked(records, id, {}) == records
  {}

  /** Going on to `k`. */
  lemma RevokedMore(records: Records, id: string, broken: set<string>, todo: set<string>, k: string)
    requires k in records && k in todo
    ensures var done, more := Revoked(records, id, records.Keys - (todo + broken)),
      Revoked(records, id, records.Keys - (todo - {k} + broken));
      && k in done && done[k] == records[k]
      && more == if k in broken || !IsLiveFor(records[k], id) then done
                 else done[k := Good(records[k].record.(revoked := true))]
  {}

  // ---- runs -----------------------------------------------------------------------------------

  /** An issue that took effect, a revocation that succeeded, or one that failed after it had
      reached some records. */
  datatype Op =
    | Issue(id: string, granted: set<Category>, secret: string, at: Time)
    | Revoke(id: string)
    | FailedRevoke(id: string, reached: set<string>)

  ghost function Apply(digest: string -> string, faults: Schedule, n: nat, records: Records, op: Op): Records {
    match op
    case Issue(id, granted, secret, at) => Issued(records, digest(secret), id, granted, at)
    case Revoke(id) => Revoked(records, id, records.Keys - Broken(faults, n, records))
    case FailedRevoke(id, reached) => Revoked(records, id, reached)
  }

  ghost function Run(digest: string -> string, faults: Schedule, start: Records, ops: seq<Op>): Records {
    if ops == [] then start
    else Apply(digest, faults, |ops| - 1, Run(digest, faults, start, ops[..|ops|-1]), ops[|ops|-1])
  }

  ghost predicate Injective(digest: string -> string) {
    forall a, b | digest(a) == digest(b) :: a == b
  }

  /** Secrets are drawn fresh: no two issues share one. */
  ghost predicate FreshSecrets(ops: seq<Op>) {
    forall i, j | 0 <= i < j < |ops| && ops[i].Issue? && ops[j].Issue? :: ops[i].secret != ops[j].secret
  }

  /** The n-th operation leaves a live record of `id` under `key` alone. */
  ghost predicate Spares(faults: Schedule, n: nat, op: Op, id: string, key: string) {
    match op
    case Issue(_, _, _, _) => true
    case Revoke(revoked) => revoked == id ==> faults(n, Reading(key)).Breaks?
    case FailedRevoke(revoked, reached) => revoked == id ==> key !in reached
  }

  /** At step `i` this secret was issued, and no revocation since has reached its record. */
  ghost predicate LiveSince(digest: string -> string, faults: Schedule, ops: seq<Op>, secret: string, i: int) {
    0 <= i < |ops| && ops[i].Issue? && ops[i].secret == secret
    && forall j | i < j < |ops| :: Spares(faults, j, ops[j], ops[i].id, digest(secret))
  }

  ghost predicate EverIssued(ops: seq<Op>, secret: string) {
    exists i :: 0 <= i < |ops| && ops[i].Issue? && ops[i].secret == secret
  }

  function EntryOf(op: Op, revoked: bool): Entry
    requires op.Issue?
  {
    Good(Record(op.id, op.granted, op.at, revoked))
  }

  /** What the records say of a secret: whom it was issued to, and whether a revocation has
      reached it since; one that was never issued has whatever was there before. */
  ghost predicate Tells(digest: string -> string, faults: Schedule, start: Records, ops: seq<Op>, secret: string) {
    var records, key := Run(digest, faults, start, ops), digest(secret);
    && (!EverIssued(ops, secret) ==> (key in records <==> key in start) && (key in records ==> records[key].Corrupt?))
    && forall i | 0 <= i < |ops| && ops[i].Issue? && ops[i].secret == secret ::
         key in records && records[key] == EntryOf(ops[i], !LiveSince(digest, faults, ops, secret, i))
  }

  lemma {:induction false} RecordOfSecret(digest: string -> string, faults: Schedule, start: Records, ops: seq<Op>,
                                          secret: string)
    requires Injective(digest) && FreshSecrets(ops) && forall k | k in start :: start[k].Corrupt?
    ensures Tells(digest, faults, start, ops, secret)
  {
    if ops != [] {
      RecordOfSecret(digest, faults, start, ops[..|ops|-1], secret);
      StepRecord(digest, faults, start, ops, secret);
    }
  }

  lemma StepRecord(digest: string -> string, faults: Schedule, start: Records, ops: seq<Op>, secret: string)
    requires ops != [] && Injective(digest) && FreshSecrets(ops)
    requires Tells(digest, faults, start, ops[..|ops|-1], secret)
    ensures Tells(digest, faults, start, ops, secret)
  {
    var n := |ops| - 1;
    var init, last := ops[..n], ops[n];
    var before, records, key := Run(digest, faults, start, init), Run(digest, faults, start, ops), digest(secret);
    if !EverIssued(ops, secret) {
      assert !EverIssued(init, secret) by {
        forall i | 0 <= i < n && init[i].Issue? ensures init[i].secret != secret { assert ops[i] == init[i]; }
      }
    }
    forall i | 0 <= i < |ops| && ops[i].Issue? && ops[i].secret == secret
      ensures key in records && records[key] == EntryOf(ops[i], !LiveSince(digest, faults, ops, secret, i))
    {
      if i < n {
        assert init[i] == ops[i];
        LiveSinceStep(digest, faults, ops, secret, i);
      }
    }
  }

  lemma LiveSinceStep(digest: string -> string, faults: Schedule, ops: seq<Op>, secret: string, i: int)
    requires 0 <= i < |ops| - 1 && ops[i].Issue? && ops[i].secret == secret
    ensures LiveSince(digest, faults, ops, secret, i) <==>
      LiveSince(digest, faults, ops[..|ops|-1], secret, i)
        && Spares(faults, |ops| - 1, ops[|ops|-1], ops[i].id, digest(secret))
  {
    var n := |ops| - 1;
    var init := ops[..n];
    assert forall j | 0 <= j < n :: init[j] == ops[j];
  }

  /** After any run of issues and revocations, with any failures, a secret resolves to a
      consumer exactly when it was issued and every later revocation of its id failed before
      its record or could not read it; and then to exactly what was granted. Unparseable
      neighbours make no difference. */
  lemma {:induction false} ResolvesIffLive(
      digest: string -> string, faults: Schedule, start: Records, ops: seq<Op>, secret: string, token: Token)
    requires Injective(digest) && FreshSecrets(ops) && forall k | k in start :: start[k].Corrupt?
    ensures Resolved(Run(digest, faults, start, ops), digest(secret)) == Ok(Some(token))
        <==> exists i :: LiveSince(digest, faults, ops, secret, i) && token == Token(ops[i].id, ops[i].granted, false)
  {
    RecordOfSecret(digest, faults, start, ops, secret);
    var r := Resolved(Run(digest, faults, start, ops), digest(secret));
    if r == Ok(Some(token)) {
      assert EverIssued(ops, secret);
      var i :| 0 <= i < |ops| && ops[i].Issue? && ops[i].secret == secret;
      assert LiveSince(digest, faults, ops, secret, i);
    }
  }

  /** A secret that was issued for `id` and works. */
  ghost predicate Works(digest: string -> string, records: Records, secret: string, id: string) {
    var r := Resolved(records, digest(secret));
    r.Ok? && r.value.Some? && r.value.value.id == id
  }

  /** A secret that was issued before a revocation of its id reported success works at the end
      of the run exactly if it worked until then, its record could not be read during that
      revocation, and no later one has reached it. */
  lemma SurvivesRevocationIff(
      digest: string -> string, faults: Schedule, start: Records, ops: seq<Op>, secret: string, i: nat, j: nat)
    requires Injective(digest) && FreshSecrets(ops) && forall k | k in start :: start[k].Corrupt?
    requires i < j < |ops| && ops[i].Issue? && ops[i].secret == secret && ops[j] == Revoke(ops[i].id)
    ensures Works(digest, Run(digest, faults, start, ops), secret, ops[i].id) <==>
      && Works(digest, Run(digest, faults, start, ops[..j]), secret, ops[i].id)
      && faults(j, Reading(digest(secret))).Breaks?
      && forall l | j < l < |ops| :: Spares(faults, l, ops[l], ops[i].id, digest(secret))
  {
    var before := ops[..j];
    assert forall l | 0 <= l < j :: before[l] == ops[l];
    RecordOfSecret(digest, faults, start, before, secret);
    RecordOfSecret(digest, faults, start, ops, secret);
    assert before[i] == ops[i];
    LiveSinceSplit(digest, faults, ops, secret, i, j);
  }

  lemma LiveSinceSplit(digest: string -> string, faults: Schedule, ops: seq<Op>, secret: string, i: nat, j: nat)
    requires i < j < |ops| && ops[i].Issue? && ops[i].secret == secret
    ensures LiveSince(digest, faults, ops, secret, i) <==>
      && LiveSince(digest, faults, ops[..j], secret, i)
      && Spares(faults, j, ops[j], ops[i].id, digest(secret))
      && forall l | j < l < |ops| :: Spares(faults, l, ops[l], ops[i].id, digest(secret))
  {
    var before := ops[..j];
    assert forall l | 0 <= l < j :: before[l] == ops[l];
    if LiveSince(digest, faults, before, secret, i) && Spares(faults, j, ops[j], ops[i].id, digest(secret))
       && forall l | j < l < |ops| :: Spares(faults, l, ops[l], ops[i].id, digest(secret)) {
      forall l | i < l < |ops| ensures Spares(faults, l, ops[l], ops[i].id, digest(secret)) {
        if l < j { assert Spares(faults, l, before[l], before[i].id, digest(secret)); }
      }
    }
  }

  lemma RevokedSecret(digest: string -> string, faults: Schedule, start: Records, ops: seq<Op>, id: string,
                      secret: string, other: string)
    ensures Works(digest, Run(digest, faults, start, ops + [Revoke(id)]), secret, other) <==>
      && Works(digest, Run(digest, faults, start, ops), secret, other)
      && (other == id ==> faults(|ops|, Reading(digest(secret))).Breaks?)
  {
    assert (ops + [Revoke(id)])[..|ops|] == ops;
  }

  ghost predicate NoneWorks(digest: string -> string, records: Records, id: string) {
    forall secret :: !Works(digest, records, secret, id)
  }

  /** None of the working secrets of `id` has a record whose read breaks. */
  ghost predicate AllReadable(digest: string -> string, faults: Schedule, n: nat, records: Records, id: string) {
    forall secret | Works(digest, records, secret, id) :: !faults(n, Reading(digest(secret))).Breaks?
  }

  /** So a revocation that reported success has revoked every secret of the id if and only if
      no read of a record that worked broke; secrets of other ids are untouched. */
  lemma RevokesAllIff(digest: string -> string, faults: Schedule, start: Records, ops: seq<Op>, id: string)
    ensures var before, after := Run(digest, faults, start, ops), Run(digest, faults, start, ops + [Revoke(id)]);
      && (NoneWorks(digest, after, id) <==> AllReadable(digest, faults, |ops|, before, id))
      && (forall secret, other | other != id ::
        Works(digest, after, secret, other) <==> Works(digest, before, secret, other))
  {
    var before, after := Run(digest, faults, start, ops), Run(digest, faults, start, ops + [Revoke(id)]);
    forall secret, other
      ensures Works(digest, after, secret, other) <==>
        Works(digest, before, secret, other) && (other == id ==> faults(|ops|, Reading(digest(secret))).Breaks?)
    {
      RevokedSecret(digest, faults, start, ops, id, secret, other);
    }
    if NoneWorks(digest, after, id) {
      forall secret | Works(digest, before, secret, id) ensures !faults(|ops|, Reading(digest(secret))).Breaks? {
        assert !Works(digest, after, secret, id);
      }
    }
  }

  /** The comment at the scan takes a record that cannot be read for one that cannot be used.
      Two secrets are issued for one id and then revoked, one read breaking: the answer is
      yes, and the other secret still opens the door. */
  lemma RevokedSecretStillWorks(digest: string -> string, first: string, second: string, id: string,
                                granted: set<Category>)
    requires Injective(digest) && first != second
    ensures var faults: Schedule := (n, access) =>
        if n == 2 && access == Reading(digest(second)) then Breaks(false) else Fine;
      var issued := Run(digest, faults, map[], [Issue(id, granted, first, 0), Issue(id, granted, second, 0)]);
      var after := Run(digest, faults, map[],
        [Issue(id, granted, first, 0), Issue(id, granted, second, 0), Revoke(id)]);
      && Succeeds(faults, 2, issued, id) && FindsSome(faults, 2, issued, id)
      && Resolved(after, digest(first)) == Ok(None)
      && Resolved(after, digest(second)) == Ok(Some(Token(id, granted, false)))
  {
    var faults: Schedule := (n, access) => if n == 2 && access == Reading(digest(second)) then Breaks(false) else Fine;
    var a, b := Issue(id, granted, first, 0), Issue(id, granted, second, 0);
    assert [a][..0] == [] && [a, b][..1] == [a] && [a, b, Revoke(id)][..2] == [a, b];
    var one := Issued(map[], digest(first), id, granted, 0);
    assert Run(digest, faults, map[], [a]) == one;
    var issued := Issued(one, digest(second), id, granted, 0);
    assert Run(digest, faults, map[], [a, b]) == issued;
    assert digest(first) != digest(second);
    assert digest(first) in issued && digest(first) !in Broken(faults, 2, issued)
      && IsLiveFor(issued[digest(first)], id);
    assert digest(second) in Broken(faults, 2, issued);
  }

  /** Nobody is let in who was not: a key that holds a good record belongs to an issued
      secret. */
  lemma {:induction false} GoodKeysWereIssued(digest: string -> string, faults: Schedule, start: Records,
                                              ops: seq<Op>, key: string)
    requires forall k | k in start :: start[k].Corrupt?
    requires var records := Run(digest, faults, start, ops); key in records && records[key].Good?
    ensures exists i :: 0 <= i < |ops| && ops[i].Issue? && digest(ops[i].secret) == key
  {
    var n := |ops| - 1;
    var init, before := ops[..n], Run(digest, faults, start, ops[..n]);
    if ops[n].Issue? && digest(ops[n].secret) == key {
    } else {
      assert key in before && before[key].Good?;
      GoodKeysWereIssued(digest, faults, start, init, key);
      var i :| 0 <= i < |init| && init[i].Issue? && digest(init[i].secret) == key;
      assert ops[i] == init[i];
    }
  }

  /** The n-th operation lists exactly the secrets that still work and whose record can be
      read at that time. */
  lemma ListedIffLive(
      digest: string -> string, faults: Schedule, start: Records, ops: seq<Op>, out: seq<TokenInfo>, info: TokenInfo)
    requires Injective(digest) && FreshSecrets(ops) && forall k | k in start :: start[k].Corrupt?
    requires var records := Run(digest, faults, start, ops); IsLiveList(records, Broken(faults, |ops|, records), out)
    ensures info in out <==>
      exists i :: 0 <= i < |ops| && ops[i].Issue? && LiveSince(digest, faults, ops, ops[i].secret, i)
        && !faults(|ops|, Reading(digest(ops[i].secret))).Breaks?
          && info == TokenInfo(ops[i].id, ops[i].granted, ops[i].at)
  {
    var records := Run(digest, faults, start, ops);
    var broken := Broken(faults, |ops|, records);
    var keys: seq<string> :| NoDup(keys)
      && (forall k :: k in keys <==> k in records && k !in broken && IsLive(records[k]))
      && multiset(out) == multiset(Infos(records, keys));
    SamePermutation(out, Infos(records, keys));
    if info in out {
      var j :| 0 <= j < |keys| && Infos(records, keys)[j] == info;
      assert keys[j] in keys;
      var i := LiveRecordWasIssued(digest, faults, start, ops, keys[j]);
    }
    if i :| 0 <= i < |ops| && ops[i].Issue? && LiveSince(digest, faults, ops, ops[i].secret, i)
            && !faults(|ops|, Reading(digest(ops[i].secret))).Breaks?
              && info == TokenInfo(ops[i].id, ops[i].granted, ops[i].at) {
      RecordOfSecret(digest, faults, start, ops, ops[i].secret);
      var key := digest(ops[i].secret);
      assert key in keys;
      var j :| 0 <= j < |keys| && keys[j] == key;
      assert Infos(records, keys)[j] == info;
    }
  }

  /** The issue behind a live record. */
  lemma LiveRecordWasIssued(digest: string -> string, faults: Schedule, start: Records, ops: seq<Op>, key: string)
    returns (i: nat)
    requires Injective(digest) && FreshSecrets(ops) && forall k | k in start :: start[k].Corrupt?
    requires var records := Run(digest, faults, start, ops); key in records && IsLive(records[key])
    ensures i < |ops| && ops[i].Issue? && digest(ops[i].secret) == key
      && LiveSince(digest, faults, ops, ops[i].secret, i)
    ensures InfoOf(Run(digest, faults, start, ops)[key]) == TokenInfo(ops[i].id, ops[i].granted, ops[i].at)
  {
    GoodKeysWereIssued(digest, faults, start, ops, key);
    i :| 0 <= i < |ops| && ops[i].Issue? && digest(ops[i].secret) == key;
    RecordOfSecret(digest, faults, start, ops, ops[i].secret);
  }

  /** Of two entries the one issued later comes first, and of those issued together the one
      whose id comes first by code points. */
  lemma ListedNewestFirst(records: Records, broken: set<string>, out: seq<TokenInfo>, i: nat, j: nat)
    requires IsLiveList(records, broken, out) && i < j < |out|
    ensures out[i].issuedAt > out[j].issuedAt
      || (out[i].issuedAt == out[j].issuedAt
          && (out[i].id <= out[j].id || exists k :: PartsAt(out[i].id, out[j].id, k)))
  {
    assert IssuedLater(out[i], out[j]);
    StrLeMeans(out[i].id, out[j].id);
  }

  /** As many entries as live secrets that can be read: each record is listed once. */
  lemma ListCountsLive(records: Records, broken: set<string>, out: seq<TokenInfo>)
    requires IsLiveList(records, broken, out)
    ensures |out| == |set k | k in records && k !in broken && IsLive(records[k])|
  {
    var keys: seq<string> :| NoDup(keys)
      && (forall k :: k in keys <==> k in records && k !in broken && IsLive(records[k]))
      && multiset(out) == multiset(Infos(records, keys));
    SamePermutation(out, Infos(records, keys));
    NoDupSetSize(keys);
    assert (set k | k in records && k !in broken && IsLive(records[k])) == set k | k in keys;
  }
}
