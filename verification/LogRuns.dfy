/** A run of two requests after which the untampered audit log is rejected. */
module LogRuns {
  import opened Timestamp
  import opened Model
  import opened SecureCrypto
  import opened PlainVault
  import opened Vault
  import opened Machine
  import opened Invariant
  import opened Interleavings
  import opened Serial
  import Audit

  /** Everything later lemmas need of a vault idle between two requests. */
  ghost predicate Idle(s: System, dek: Key) {
    Reachable(s, dek) && SerialOK(s, dek) && s.keys.Some?
  }

  lemma CreateStaysIdle(s: System, dek: Key, meta: SecretMetadata, value: string, draws: Draws)
    requires Idle(s, dek) && SafeNames(NameOf(meta)) && meta.id == "" && FreshDraws(s.tables, draws)
    ensures Idle(Complete(s, CreateSecret(meta, value), draws), dek)
  {
    CreateRefines(s, dek, meta, value, draws);
    CompleteKeeps(s, dek, CreateSecret(meta, value), draws);
    CompleteReachable(s, dek, CreateSecret(meta, value), draws);
  }

  lemma CreateCommits(s: System, dek: Key, meta: SecretMetadata, value: string, draws: Draws)
    requires Idle(s, dek) && SafeNames(NameOf(meta)) && meta.id == "" && FreshDraws(s.tables, draws)
    requires NameOf(meta) !in Replay(s.history)
    ensures var created, keys := NewSecret(meta, draws), KeysOf(dek);
            StageCreate(s.tables, keys, created, value, draws).Ok? &&
            Committed(s, Complete(s, CreateSecret(meta, value), draws), keys,
                      StageCreate(s.tables, keys, created, value, draws).value,
                      CreateCommit(created, value, draws), created)
  {
    CreateStages(s.tables, Replay(s.history), KeysOf(dek), NewSecret(meta, draws), value, draws);
    CreateRuns(s, KeysOf(dek), meta, value, draws);
  }

  /** A create that goes through, run alone, logs one event. */
  lemma CreateLogs(s: System, dek: Key, meta: SecretMetadata, value: string, draws: Draws) returns (s': System)
    requires Idle(s, dek) && SafeNames(NameOf(meta)) && meta.id == "" && FreshDraws(s.tables, draws)
    requires NameOf(meta) !in Replay(s.history)
    ensures Idle(s', dek) && s'.history == s.history + [CreateCommit(NewSecret(meta, draws), value, draws)]
    ensures CommitCreate(s.tables, KeysOf(dek), NewSecret(meta, draws), value, draws) == Ok(s'.tables)
  {
    s' := Complete(s, CreateSecret(meta, value), draws);
    CreateStaysIdle(s, dek, meta, value, draws);
    CreateCommits(s, dek, meta, value, draws);
  }

  lemma StillFresh(t: Tables, keys: KeySet, created: SecretMetadata, value: string, draws: Draws, later: Draws)
    requires FreshDraws(t, later) && CommitCreate(t, keys, created, value, draws).Ok?
    requires later.objectId != created.id && later.versionId != draws.versionId && later.eventId != draws.eventId
    ensures FreshDraws(CommitCreate(t, keys, created, value, draws).value, later)
  {
  }

  function Named(name: string): SecretMetadata {
    SecretMetadata("", "project", "dev", name, "default", 258, 0, Active, ZERO_TIME, ZERO_TIME)
  }

  lemma NamedIsSafe(name: string)
    requires name == "first" || name == "second"
    ensures SafeNames(NameOf(Named(name)))
  {
  }

  lemma NotCreatedYet(meta: SecretMetadata, meta': SecretMetadata, draws: Draws)
    requires NameOf(meta) != NameOf(meta')
    ensures NameOf(meta') !in Replay([]) && NameOf(meta) !in Replay([])
    ensures NameOf(meta') !in Replay([] + [CreateCommit(NewSecret(meta, draws), "value", draws)])
  {
    ReplaySnoc([], CreateCommit(NewSecret(meta, draws), "value", draws));
  }

  /** Two creates one after the other, with nothing drawn twice. */
  lemma TwoCreates(start: System, dek: Key, meta: SecretMetadata, meta': SecretMetadata, draws: Draws, draws': Draws)
    returns (s: System)
    requires Idle(start, dek) && start.history == []
    requires SafeNames(NameOf(meta)) && SafeNames(NameOf(meta')) && meta.id == meta'.id == ""
    requires NameOf(meta) != NameOf(meta') && FreshDraws(start.tables, draws) && FreshDraws(start.tables, draws')
    requires draws'.objectId != draws.objectId && draws'.versionId != draws.versionId
    requires draws'.eventId != draws.eventId
    ensures Idle(s, dek)
    ensures s.history == [CreateCommit(NewSecret(meta, draws), "value", draws),
                          CreateCommit(NewSecret(meta', draws'), "value", draws')]
  {
    var between := CreateLogs(start, dek, meta, "value", draws);
    StillFresh(start.tables, KeysOf(dek), NewSecret(meta, draws), "value", draws, draws');
    NotCreatedYet(meta, meta', draws);
    s := CreateLogs(between, dek, meta', "value", draws');
  }

  lemma StartsIdle(start: System, dek: Key, password: string, draws: Draws)
    requires Initialised(start, dek, password)
    ensures Idle(start, dek) && start.history == [] && FreshDraws(start.tables, draws)
  {
    InitialisedIsOK(start, dek, password);
    InitialisedIsReachable(start, dek, password);
  }

  lemma TwoEvents(s: System, dek: Key, commit: Commit, commit': Commit)
    requires Reachable(s, dek) && s.history == [commit, commit']
    ensures EventsOf(s.history) == [commit.event, commit'.event]
    ensures s.tables.audit == Audit.Build(KeysOf(dek).audit, [commit.event, commit'.event])
  {
    assert EventsOf(s.history) == [commit.event, commit'.event];
    AuditOfRun(s, dek);
  }

  /** Two secrets created in a new vault, the first logged on a whole second and the other later
      within it: the times increase, nothing was tampered with, and the listing rejects the log. */
  lemma UntamperedLogRejected(start: System, dek: Key, password: string, first: Instant, second: Instant)
    returns (s: System)
    requires Initialised(start, dek, password)
    requires Clock(first) == Clock(second) && first.nanosecond == 0 < second.nanosecond
    ensures Reachable(s, dek) && |s.history| == 2
    ensures Audit.TimesIncrease(EventsOf(s.history))
    ensures !Audit.Chained(Audit.ByStamp(s.tables.audit), KeysOf(dek).audit)
  {
    var draws, draws' := Draws("o1", "v1", "e1", first, first), Draws("o2", "v2", "e2", second, second);
    StartsIdle(start, dek, password, draws);
    StartsIdle(start, dek, password, draws');
    NamedIsSafe("first");
    NamedIsSafe("second");
    s := TwoCreates(start, dek, Named("first"), Named("second"), draws, draws');
    var commit, commit' := s.history[0], s.history[1];
    TwoEvents(s, dek, commit, commit');
    Audit.WholeSecondRejected(KeysOf(dek).audit, commit.event, commit'.event);
  }
}
