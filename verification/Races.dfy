/** Rotation as compare-and-swap, and what it misses: revokes write the revision they read plus
    one without comparing, so a rotation can find its revision on a row it never read. */
module Races {
  import opened Model
  import opened SecureCrypto
  import opened PlainVault
  import opened Vault
  import opened Machine
  import opened Invariant
  import opened Preservation
  import opened Interleavings
  import opened RecordedVersions
  import opened Serial
  import Audit

  // ----- Stored metadata is what was last written -----

  ghost predicate MetaLast(t: Tables, history: seq<Commit>, id: string)
    requires IsKind(t, id, SecretObject)
  {
    var row := t.objects[id];
    row.box.plaintext.SecretDocument? && LastMeta(history, RowName(row)) == Some(Meta(row))
  }

  ghost predicate MetasLast(t: Tables, history: seq<Commit>) {
    forall id :: IsKind(t, id, SecretObject) ==> MetaLast(t, history, id)
  }

  /** What an advance can commit. */
  function EffectOf(task: Task, draws: Draws): Option<Effect> {
    match task
    case Creating(_, _, value) => Some(Created(Written(task, draws), value))
    case Rotating(_, _, _, _, _, value) => Some(Rotated(Written(task, draws), value))
    case Revoking(_, _, _) => Some(RevokedSecret(Written(task, draws)))
    case WritingAction(_, action, _) => Some(ActionPut(action))
    case Logging(_, _) => Some(Logged)
    case ReplacingAction(_, _, _) => None
    case ReadingAction(_, _, _, _) => None
  }

  /** The history grew by that effect. */
  ghost predicate GrewBy(history: seq<Commit>, history': seq<Commit>, effect: Option<Effect>) {
    effect.Some? && exists commit: Commit :: commit.effect == effect.value && history' == history + [commit]
  }

  lemma AdvanceHistory(s: System, thread: nat, draws: Draws)
    requires thread in s.tasks && Commits(s, thread, draws)
    ensures GrewBy(s.history, AdvanceStep(s, thread, draws).history, EffectOf(s.tasks[thread], draws))
  {
    var history' := AdvanceStep(s, thread, draws).history;
    var commit := history'[|history'| - 1];
    assert history' == s.history + [commit];
  }

  lemma WroteMetas(t: Tables, plain: Plain, t': Tables, keys: KeySet, history: seq<Commit>, commit: Commit,
                   meta: SecretMetadata, entry: Entry)
    requires MetasLast(t, history) && Wrote(t, plain, t', meta, entry) && ObjectsOK(t', keys)
    requires MetaOf(commit.effect) == Some(meta)
    ensures MetasLast(t', history + [commit])
  {
    forall id | IsKind(t', id, SecretObject) ensures MetaLast(t', history + [commit], id) {
      LastMetaSnoc(history, commit, RowName(t'.objects[id]));
      if id != meta.id {
        assert IsKind(t, id, SecretObject) && MetaLast(t, history, id);
        if RowName(t'.objects[id]) == NameOf(meta) {
          NamesUnique(t', keys, SecretObject, id, meta.id);
        }
      }
    }
  }

  lemma CalmMetas(t: Tables, t': Tables, history: seq<Commit>, history': seq<Commit>, effect: Option<Effect>)
    requires MetasLast(t, history) && SameSecrets(t, t')
    requires history' == history || (GrewBy(history, history', effect) && MetaOf(effect.value).None?)
    ensures MetasLast(t', history')
  {
    forall id | IsKind(t', id, SecretObject) ensures MetaLast(t', history', id) {
      assert IsKind(t, id, SecretObject) && MetaLast(t, history, id);
      if history' != history {
        var commit: Commit :| commit.effect == effect.value && history' == history + [commit];
        LastMetaSnoc(history, commit, RowName(t'.objects[id]));
      }
    }
  }

  lemma TouchedMetas(s: System, s': System, dek: Key, task: Task, draws: Draws)
    requires MetasLast(s.tables, s.history) && ObjectsOK(s'.tables, KeysOf(dek))
    requires WritesSecret(task) && TouchedBy(s, s', task, draws)
    requires GrewBy(s.history, s'.history, EffectOf(task, draws))
    ensures MetasLast(s'.tables, s'.history)
  {
    var commit: Commit :| commit.effect == EffectOf(task, draws).value && s'.history == s.history + [commit];
    WroteMetas(s.tables, Replay(s.history), s'.tables, KeysOf(dek), s.history, commit, Written(task, draws),
               Left(task, Replay(s.history)));
  }

  lemma OtherEffects(task: Task, draws: Draws)
    requires !WritesSecret(task) && EffectOf(task, draws).Some?
    ensures MetaOf(EffectOf(task, draws).value).None?
  {
  }

  lemma MetasAfter(s: System, s': System, dek: Key, task: Task, draws: Draws)
    requires MetasLast(s.tables, s.history) && ObjectsOK(s'.tables, KeysOf(dek))
    requires s'.history != s.history ==> GrewBy(s.history, s'.history, EffectOf(task, draws))
    requires if WritesSecret(task) && s'.history != s.history then TouchedBy(s, s', task, draws) else Calm(s, s')
    ensures MetasLast(s'.tables, s'.history)
  {
    if WritesSecret(task) && s'.history != s.history {
      TouchedMetas(s, s', dek, task, draws);
    } else {
      if s'.history != s.history {
        OtherEffects(task, draws);
      }
      CalmMetas(s.tables, s'.tables, s.history, s'.history, EffectOf(task, draws));
    }
  }

  lemma AdvanceMetas(s: System, dek: Key, thread: nat, draws: Draws)
    requires SystemOK(s, dek) && MetasLast(s.tables, s.history) && thread in s.tasks
    ensures var s' := AdvanceStep(s, thread, draws); MetasLast(s'.tables, s'.history)
  {
    var s' := AdvanceStep(s, thread, draws);
    assert ObjectsOK(s'.tables, KeysOf(dek)) by { AdvanceKeeps(s, dek, thread, draws); }
    assert s'.history != s.history ==> GrewBy(s.history, s'.history, EffectOf(s.tasks[thread], draws)) by {
      if Commits(s, thread, draws) {
        AdvanceHistory(s, thread, draws);
      }
    }
    AdvanceEffect(s, dek, thread, draws);
    MetasAfter(s, s', dek, s.tasks[thread], draws);
  }

  lemma StepMetas(s: System, dek: Key, event: Event)
    requires SystemOK(s, dek) && MetasLast(s.tables, s.history)
    ensures MetasLast(Step(s, event).tables, Step(s, event).history)
  {
    if event.Advance? && event.thread in s.tasks {
      AdvanceMetas(s, dek, event.thread, event.draws);
    } else {
      OtherStepsWrite(s, event);
    }
  }

  /** At every moment of every interleaving the stored metadata of a secret is that of the last
      commit that wrote it. */
  lemma {:induction false} StoredMetaIsLast(vaultID: string, wrapper: Wrapper, events: seq<Event>)
    ensures var s := Run(Fresh(vaultID, wrapper), events); MetasLast(s.tables, s.history)
    decreases |events|
  {
    if events != [] {
      var n := |events| - 1;
      StoredMetaIsLast(vaultID, wrapper, events[..n]);
      RunKeeps(vaultID, wrapper, events[..n]);
      StepMetas(Run(Fresh(vaultID, wrapper), events[..n]), wrapper.box.plaintext, events[n]);
    }
  }

  // ----- When a committed rotation found the row it had read -----

  /** Step `i` commits a rotation begun by step `j`. */
  ghost predicate CommitsRotation(start: System, events: seq<Event>, j: nat, i: nat) {
    && j < i < |events| && events[i].Advance?
    && var now, thread := Run(start, events[..i]), events[i].thread;
       && thread in now.tasks && now.tasks[thread].Rotating? && Commits(now, thread, events[i].draws)
       && BegunAt(start, events, thread, j, i)
  }

  /** Every commit since `from` that wrote the secret revoked it. */
  ghost predicate OnlyRevoked(history: seq<Commit>, from: nat, name: FullName) {
    forall k :: from <= k < |history| && Writes(history[k].effect, name) ==> history[k].effect.RevokedSecret?
  }

  ghost predicate NoneWrote(history: seq<Commit>, from: nat, name: FullName) {
    forall k :: from <= k < |history| ==> !Writes(history[k].effect, name)
  }

  /** No commit since `from` wrote the secret with the given update time. */
  ghost predicate NoneWroteAt(history: seq<Commit>, from: nat, name: FullName, read: SecretMetadata) {
    forall k :: from <= k < |history| && Writes(history[k].effect, name) ==>
      MetaOf(history[k].effect).value.updatedAt != read.updatedAt
  }

  lemma CommittedRotationFacts(s: System, dek: Key, thread: nat, draws: Draws)
    requires SystemOK(s, dek) && thread in s.tasks && s.tasks[thread].Rotating? && Commits(s, thread, draws)
    ensures var task, plain := s.tasks[thread], Replay(s.history);
            && StoredAs(s.tables, task.read)
            && s.tables.objects[task.read.id].revision == task.revision
            && NameOf(task.read) in plain && task.read.version == plain[NameOf(task.read)].version
  {
    var task := s.tasks[thread];
    assert TaskOK(task, s.tables, Replay(s.history), KeysOf(dek));
    RotatingEffect(s, KeysOf(dek), thread, draws);
    RotatingAdvance(s, thread, draws);
    CommittedRotateRow(s.tables, task.keys, task.read, task.revision, RotationOf(task, draws), task.value, draws);
  }

  ghost predicate StoredAs(t: Tables, read: SecretMetadata) {
    IsKind(t, read.id, SecretObject) && RowName(t.objects[read.id]) == NameOf(read)
  }

  /** A row in good order is determined by its kind, revision and document. */
  lemma RowDetermined(id: string, row: ObjectRow, row': ObjectRow, keys: KeySet)
    requires ObjectOK(id, row, keys) && ObjectOK(id, row', keys)
    requires row.kind == row'.kind && row.revision == row'.revision && row.box.plaintext == row'.box.plaintext
    ensures row == row'
  {
  }

  /** A stored name is never created again. */
  lemma StoredOnce(history: seq<Commit>, from: nat, name: FullName, k: nat)
    requires LegalHistory(history) && from <= k < |history| && name in Replay(history[..from])
    ensures !(history[k].effect.Created? && Writes(history[k].effect, name))
  {
    LegalPrefix(history, k);
    assert history[..from] <= history[..k];
    VersionSameExactly(history[..from], history[..k], name);
    assert Legal(Replay(history[..k]), history[k].effect);
  }

  /** A rotation that commits was preceded, since it began, by no write of its secret but revokes. */
  lemma OnlyRevokesPass(history: seq<Commit>, from: nat, read: SecretMetadata)
    requires LegalHistory(history) && from <= |history| && NameOf(read) in Replay(history[..from])
    requires read.version <= Replay(history[..from])[NameOf(read)].version
    requires NameOf(read) in Replay(history) && read.version == Replay(history)[NameOf(read)].version
    ensures OnlyRevoked(history, from, NameOf(read))
  {
    var name := NameOf(read);
    VersionSameExactly(history[..from], history, name);
    forall k | from <= k < |history| && Writes(history[k].effect, name) ensures history[k].effect.RevokedSecret? {
      StoredOnce(history, from, name, k);
      assert !IsRotation(history[k].effect, name);
    }
  }

  /** Exactly when a committed rotation finds the row it had read.  The revision alone does not
      tell: revokes may have come in between, and nothing else.  The row is unchanged exactly if
      the metadata last written is still the metadata read; in particular if no revoke of the
      secret was committed in between, and only then if their times differ from the one read. */
  lemma RotationFindsRowExactly(vaultID: string, wrapper: Wrapper, events: seq<Event>, j: nat, i: nat)
    requires CommitsRotation(Fresh(vaultID, wrapper), events, j, i)
    ensures var start := Fresh(vaultID, wrapper);
            var before, now := Run(start, events[..j]), Run(start, events[..i]);
            var read := now.tasks[events[i].thread].read;
            var id, name, from := read.id, NameOf(read), |before.history|;
            && id in before.tables.objects && id in now.tables.objects
            && OnlyRevoked(now.history, from, name)
            && (now.tables.objects[id] == before.tables.objects[id] <==> LastMeta(now.history, name) == Some(read))
            && (NoneWrote(now.history, from, name) ==> now.tables.objects[id] == before.tables.objects[id])
            && (NoneWroteAt(now.history, from, name, read) ==>
                  (now.tables.objects[id] == before.tables.objects[id] <==> NoneWrote(now.history, from, name)))
  {
    var start, dek := Fresh(vaultID, wrapper), wrapper.box.plaintext;
    var before, now := Run(start, events[..j]), Run(start, events[..i]);
    var read := now.tasks[events[i].thread].read;
    HoldsRowRead(vaultID, wrapper, events, events[i].thread, j, i);
    CommittedRotationFacts(now, dek, events[i].thread, events[i].draws) by { RunKeeps(vaultID, wrapper, events[..i]); }
    RunPrefixHistory(start, events, j, i);
    assert now.history[..|before.history|] == before.history;
    OnlyRevokesPass(now.history, |before.history|, read) by { RunKeeps(vaultID, wrapper, events[..i]); }
    SameRowExactly(vaultID, wrapper, events, j, i, read);
    assert LastMeta(before.history, NameOf(read)) == Some(read) by {
      StoredMetaIsLast(vaultID, wrapper, events[..j]);
      assert MetaLast(before.tables, before.history, read.id);
    }
    LastMetaWritten(now.history, |before.history|, NameOf(read));
  }

  lemma SameRowExactly(vaultID: string, wrapper: Wrapper, events: seq<Event>, j: nat, i: nat, read: SecretMetadata)
    requires j <= i <= |events|
    requires var start := Fresh(vaultID, wrapper);
             var t, t' := Run(start, events[..j]).tables, Run(start, events[..i]).tables;
             && IsKind(t, read.id, SecretObject) && t.objects[read.id].box.plaintext == SecretDocument(read)
             && StoredAs(t', read) && t'.objects[read.id].revision == t.objects[read.id].revision
    ensures var start := Fresh(vaultID, wrapper);
            var before, now := Run(start, events[..j]), Run(start, events[..i]);
            now.tables.objects[read.id] == before.tables.objects[read.id] <==>
            LastMeta(now.history, NameOf(read)) == Some(read)
  {
    var start, dek, id := Fresh(vaultID, wrapper), wrapper.box.plaintext, read.id;
    var before, now := Run(start, events[..j]), Run(start, events[..i]);
    assert ObjectOK(id, before.tables.objects[id], KeysOf(dek)) by { RunKeeps(vaultID, wrapper, events[..j]); }
    assert ObjectOK(id, now.tables.objects[id], KeysOf(dek)) by { RunKeeps(vaultID, wrapper, events[..i]); }
    assert MetaLast(now.tables, now.history, id) by { StoredMetaIsLast(vaultID, wrapper, events[..i]); }
    if LastMeta(now.history, NameOf(read)) == Some(read) {
      RowDetermined(id, now.tables.objects[id], before.tables.objects[id], KeysOf(dek));
    }
  }

  // ----- A revoke that is overwritten unseen -----

  lemma CommittedRevokeRow(t: Tables, keys: KeySet, revoked: SecretMetadata, revision: nat, draws: Draws)
    requires CommitRevoke(t, keys, revoked, revision, draws).Ok? && revoked.id in t.objects
    ensures var t' := CommitRevoke(t, keys, revoked, revision, draws).value;
            revoked.id in t'.objects && t'.objects[revoked.id].revision == revision + 1
  {
  }

  lemma RevokedRow(s: System, dek: Key, thread: nat, draws: Draws)
    requires SystemOK(s, dek) && thread in s.tasks && s.tasks[thread].Revoking? &&
             !Audit.HasId(s.tables.audit, draws.eventId)
    ensures var task, s', plain := s.tasks[thread], AdvanceStep(s, thread, draws), Replay(s.history);
            && Commits(s, thread, draws) && s'.tasks == s.tasks - {thread}
            && IsKind(s'.tables, task.read.id, SecretObject)
            && s'.tables.objects[task.read.id].box.plaintext == SecretDocument(RevokedMetadata(task.read, draws.now))
            && s'.tables.objects[task.read.id].revision == task.revision + 1
            && NameOf(task.read) in plain
            && Replay(s'.history) == plain[NameOf(task.read) := plain[NameOf(task.read)].(state := Revoked)]
  {
    var task := s.tasks[thread];
    assert TaskOK(task, s.tables, Replay(s.history), KeysOf(dek));
    RevokingEffect(s, KeysOf(dek), thread, draws);
    RevokingAdvance(s, thread, draws);
    RevokingFinishes(s, thread, draws);
    CommittedRevokeRow(s.tables, task.keys, RevokedMetadata(task.read, draws.now), task.revision, draws);
  }

  /** The rotation `w` read the row one revision after the revoke `r` did, and the last version. */
  ghost predicate Blind(s: System, r: nat, w: nat) {
    && r != w && r in s.tasks && w in s.tasks && s.tasks[r].Revoking? && s.tasks[w].Rotating?
    && s.tasks[w].read.id == s.tasks[r].read.id && s.tasks[w].revision == s.tasks[r].revision + 1
    && NameOf(s.tasks[w].read) in Replay(s.history)
    && s.tasks[w].read.version == Replay(s.history)[NameOf(s.tasks[w].read)].version
  }

  lemma SameSecretSameName(s: System, dek: Key, r: nat, w: nat)
    requires SystemOK(s, dek) && Blind(s, r, w)
    ensures NameOf(s.tasks[r].read) == NameOf(s.tasks[w].read)
  {
    assert TaskOK(s.tasks[r], s.tables, Replay(s.history), KeysOf(dek));
    assert TaskOK(s.tasks[w], s.tables, Replay(s.history), KeysOf(dek));
  }

  /** The revoke commits and leaves the row at the revision that the rotation read. */
  lemma BlindAfterRevoke(s: System, dek: Key, r: nat, w: nat, draws: Draws)
    requires SystemOK(s, dek) && Blind(s, r, w) && !Audit.HasId(s.tables.audit, draws.eventId)
    ensures var read, task, s' := s.tasks[r].read, s.tasks[w], AdvanceStep(s, r, draws);
            && Commits(s, r, draws) && w in s'.tasks && s'.tasks[w] == task
            && task.read.id in s'.tables.objects && s'.tables.objects[task.read.id].revision == task.revision
            && s'.tables.objects[task.read.id].box.plaintext == SecretDocument(RevokedMetadata(read, draws.now))
            && NameOf(task.read) in Replay(s'.history)
            && Replay(s'.history)[NameOf(task.read)].version == task.read.version
  {
    RevokedRow(s, dek, r, draws);
    SameSecretSameName(s, dek, r, w);
  }

  /** Then both commit one after the other, though the rotation never read what the revoke wrote:
      the comparison of revisions passes on another row. */
  lemma BlindRotationCommits(s: System, dek: Key, r: nat, w: nat, draws: Draws, draws': Draws)
    requires SystemOK(s, dek) && Blind(s, r, w) && !Audit.HasId(s.tables.audit, draws.eventId)
    requires FreshDraws(AdvanceStep(s, r, draws).tables, draws')
    ensures var read, task, s' := s.tasks[r].read, s.tasks[w], AdvanceStep(s, r, draws);
            var s'' := AdvanceStep(s', w, draws');
            && Commits(s, r, draws) && w in s'.tasks && s'.tasks[w] == task && Commits(s', w, draws')
            && task.read.id in s'.tables.objects
            && s'.tables.objects[task.read.id].box.plaintext == SecretDocument(RevokedMetadata(read, draws.now))
            && NameOf(task.read) in Replay(s.history) && NameOf(task.read) in Replay(s''.history)
            && Replay(s''.history)[NameOf(task.read)].version == Replay(s.history)[NameOf(task.read)].version + 1
  {
    var s' := AdvanceStep(s, r, draws);
    BlindAfterRevoke(s, dek, r, w, draws);
    AdvanceKeeps(s, dek, r, draws);
    RotationPasses(s', dek, w, draws');
    RotationStored(s', dek, w, draws');
  }

  lemma RotationPasses(s: System, dek: Key, thread: nat, draws: Draws)
    requires SystemOK(s, dek) && thread in s.tasks && s.tasks[thread].Rotating? && FreshDraws(s.tables, draws)
    requires var task, plain := s.tasks[thread], Replay(s.history);
             && task.read.id in s.tables.objects && s.tables.objects[task.read.id].revision == task.revision
             && NameOf(task.read) in plain && task.read.version == plain[NameOf(task.read)].version
    ensures Commits(s, thread, draws)
  {
    var task, keys := s.tasks[thread], KeysOf(dek);
    assert TaskOK(task, s.tables, Replay(s.history), keys);
    RotationIsNext(s.tables, Replay(s.history), keys, task.read);
    RotatingAdvance(s, thread, draws);
    RotateOutcome(s.tables, keys, task.read, task.revision, RotationOf(task, draws), task.value, draws);
  }

  /** A revoke and a rotation are read around another rotation. */
  ghost function ReadAround(s: System, first: Request, second: Request, revoking: Draws, rotating: Draws): System
    requires first.RotateSecret?
  {
    BeginStep(Alone(BeginStep(s, 1, RevokeSecret(first.name), revoking), 0, first, rotating), 2, second, rotating)
  }

  /** The revoke still holds the row as it was before the rotation. */
  ghost predicate RotatedUnderRevoke(s: System, id: string, name: FullName, keys: KeySet) {
    && s.keys == Some(keys) && s.tasks.Keys == {1} && s.tasks[1].Revoking?
    && s.tasks[1].read.id == id && NameOf(s.tasks[1].read) == name
    && IsKind(s.tables, id, SecretObject) && RowName(s.tables.objects[id]) == name
    && RecordsLast(s.tables, Replay(s.history), id)
    && s.tables.objects[id].revision == s.tasks[1].revision + 1
  }

  lemma UnderRevokeShape(reading: System, rotated: System, id: string, name: FullName, keys: KeySet)
    requires IsKind(reading.tables, id, SecretObject) && name in Replay(reading.history)
    requires RotatedAlone(reading, rotated, id, name) && reading.keys == Some(keys)
    requires var row := reading.tables.objects[id];
             && row.box.plaintext.SecretDocument? && Meta(row).id == id && NameOf(Meta(row)) == name
             && reading.tasks == map[1 := Revoking(keys, Meta(row), row.revision)]
    ensures RotatedUnderRevoke(rotated, id, name, keys)
  {
  }

  lemma RotatesUnderRevoke(s: System, dek: Key, id: string, first: Request, revoking: Draws, rotating: Draws)
    requires SystemOK(s, dek) && s.keys.Some? && s.tasks == map[] && FreshDraws(s.tables, rotating)
    requires IsKind(s.tables, id, SecretObject) && RecordsLast(s.tables, Replay(s.history), id)
    requires first.RotateSecret? && first.name == RowName(s.tables.objects[id]) && SafeNames(first.name)
    ensures var rotated := Alone(BeginStep(s, 1, RevokeSecret(first.name), revoking), 0, first, rotating);
            RotatedUnderRevoke(rotated, id, first.name, KeysOf(dek))
  {
    var reading := BeginStep(s, 1, RevokeSecret(first.name), revoking);
    BegunRevoke(s, dek, id, first.name, revoking);
    RotatesMeanwhile(reading, dek, id, 0, first, rotating) by {
      BeginKeeps(s, dek, 1, RevokeSecret(first.name), revoking);
    }
    UnderRevokeShape(reading, Alone(reading, 0, first, rotating), id, first.name, KeysOf(dek));
  }

  lemma UnderRevokeKeeps(s: System, dek: Key, first: Request, revoking: Draws, rotating: Draws)
    requires SystemOK(s, dek) && first.RotateSecret?
    ensures SystemOK(Alone(BeginStep(s, 1, RevokeSecret(first.name), revoking), 0, first, rotating), dek)
  {
    BeginKeeps(s, dek, 1, RevokeSecret(first.name), revoking);
    AloneKeeps(BeginStep(s, 1, RevokeSecret(first.name), revoking), dek, 0, first, rotating);
  }

  /** Two tasks about `id`, the second reading what the first did not. */
  ghost predicate BlindPair(s: System, name: FullName, value: string) {
    && Blind(s, 1, 2) && NameOf(s.tasks[1].read) == NameOf(s.tasks[2].read) == name && s.tasks[2].value == value
  }

  lemma UnderRevokeIsBlind(s: System, id: string, keys: KeySet, rotate: Request)
    requires rotate.RotateSecret? && RotatedUnderRevoke(s, id, rotate.name, keys) && Meta(s.tables.objects[id]).id == id
    ensures var task := RotatingOn(keys, s.tables.objects[id], rotate);
            BlindPair(s.(tasks := s.tasks[2 := task]), rotate.name, rotate.value)
  {
  }

  lemma ReadAroundIsBlind(s: System, dek: Key, id: string, first: Request, second: Request, revoking: Draws,
                          rotating: Draws)
    requires SystemOK(s, dek) && s.keys.Some? && s.tasks == map[] && FreshDraws(s.tables, rotating)
    requires IsKind(s.tables, id, SecretObject) && RecordsLast(s.tables, Replay(s.history), id)
    requires first.RotateSecret? && second.RotateSecret? && first.name == second.name == RowName(s.tables.objects[id])
    requires SafeNames(first.name)
    ensures var around := ReadAround(s, first, second, revoking, rotating);
            SystemOK(around, dek) && BlindPair(around, first.name, second.value)
  {
    var rotated := Alone(BeginStep(s, 1, RevokeSecret(first.name), revoking), 0, first, rotating);
    RotatesUnderRevoke(s, dek, id, first, revoking, rotating);
    UnderRevokeKeeps(s, dek, first, revoking, rotating);
    SecondReadIsBlind(rotated, dek, id, second, rotating);
  }

  lemma SecondReadIsBlind(s: System, dek: Key, id: string, second: Request, draws: Draws)
    requires SystemOK(s, dek) && second.RotateSecret? && SafeNames(second.name)
    requires RotatedUnderRevoke(s, id, second.name, KeysOf(dek))
    ensures var around := BeginStep(s, 2, second, draws);
            SystemOK(around, dek) && BlindPair(around, second.name, second.value)
  {
    BeginKeeps(s, dek, 2, second, draws);
    SecondReads(s, dek, id, second, draws);
    UnderRevokeIsBlind(s, id, KeysOf(dek), second);
  }

  /** What a rotation that reads this row will hold. */
  function RotatingOn(keys: KeySet, row: ObjectRow, rotate: Request): Task
    requires row.box.plaintext.SecretDocument? && rotate.RotateSecret?
  {
    Rotating(keys, Meta(row), row.revision, rotate.profile, rotate.strength, rotate.value)
  }

  lemma SecondReads(s: System, dek: Key, id: string, rotate: Request, draws: Draws)
    requires SystemOK(s, dek) && s.keys.Some? && 2 !in s.tasks && rotate.RotateSecret? && SafeNames(rotate.name)
    requires IsKind(s.tables, id, SecretObject) && RowName(s.tables.objects[id]) == rotate.name
    ensures var row := s.tables.objects[id];
            && row.box.plaintext.SecretDocument? && Meta(row).id == id
            && BeginStep(s, 2, rotate, draws) ==
               s.(tasks := s.tasks[2 := RotatingOn(KeysOf(dek), row, rotate)])
  {
    FindInOrder(s.tables, Replay(s.history), KeysOf(dek), rotate.name, id);
    assert ObjectOK(id, s.tables.objects[id], KeysOf(dek));
    BeginRotation(s, KeysOf(dek), 2, rotate, draws, Meta(s.tables.objects[id]), s.tables.objects[id].revision);
  }

  /** The interleaving, from any idle vault and any secret whose recorded version is its last: a
      revoke reads, one rotation runs, a second one reads, the revoke commits, and the second
      rotation commits over it.  The secret ends up in use. */
  lemma RevokeOverwrittenUnseen(s: System, dek: Key, id: string, first: Request, second: Request,
                                rotating: Draws, revoking: Draws, last: Draws)
    requires Reachable(s, dek) && s.keys.Some? && s.tasks == map[] && FreshDraws(s.tables, rotating)
    requires IsKind(s.tables, id, SecretObject) && RecordsLast(s.tables, Replay(s.history), id)
    requires first.RotateSecret? && second.RotateSecret? && first.name == second.name == RowName(s.tables.objects[id])
    requires SafeNames(first.name)
    requires var around := ReadAround(s, first, second, revoking, rotating);
             && !Audit.HasId(around.tables.audit, revoking.eventId)
             && FreshDraws(AdvanceStep(around, 1, revoking).tables, last)
    ensures var around := ReadAround(s, first, second, revoking, rotating);
            var revoked := AdvanceStep(around, 1, revoking);
            var name, after := first.name, AdvanceStep(revoked, 2, last);
            && Commits(around, 1, revoking) && Commits(revoked, 2, last)
            && Resolve(revoked.tables, KeysOf(dek), name) == Err(NotFound)
            && Resolve(after.tables, KeysOf(dek), name) == Ok(second.value)
  {
    var around := ReadAround(s, first, second, revoking, rotating);
    ReadAroundIsBlind(s, dek, id, first, second, revoking, rotating) by { ReachableIsOK(s, dek); }
    BlindRotationCommits(around, dek, 1, 2, revoking, last);
    OverwrittenResolves(around, dek, revoking, last, first.name, second.value);
  }

  lemma OverwrittenResolves(s: System, dek: Key, draws: Draws, draws': Draws, name: FullName, value: string)
    requires SystemOK(s, dek) && 1 in s.tasks && s.tasks[1].Revoking? && NameOf(s.tasks[1].read) == name
    requires !Audit.HasId(s.tables.audit, draws.eventId)
    requires var s' := AdvanceStep(s, 1, draws);
             2 in s'.tasks && s'.tasks[2].Rotating? && Commits(s', 2, draws') &&
             NameOf(s'.tasks[2].read) == name && s'.tasks[2].value == value
    ensures var s' := AdvanceStep(s, 1, draws);
            && Resolve(s'.tables, KeysOf(dek), name) == Err(NotFound)
            && Resolve(AdvanceStep(s', 2, draws').tables, KeysOf(dek), name) == Ok(value)
  {
    var s' := AdvanceStep(s, 1, draws);
    var s'', keys := AdvanceStep(s', 2, draws'), KeysOf(dek);
    RevokedRow(s, dek, 1, draws);
    AdvanceKeeps(s, dek, 1, draws);
    AdvanceKeeps(s', dek, 2, draws');
    assert TaskOK(s'.tasks[2], s'.tables, Replay(s'.history), keys);
    RotatingEffect(s', keys, 2, draws');
    ResolveInOrder(s'.tables, Replay(s'.history), keys, name);
    ResolveInOrder(s''.tables, Replay(s''.history), keys, name);
  }

  /** Creating one secret in a new vault leads to such a state. */
  lemma CreatedIsReady(start: System, dek: Key, password: string, meta: SecretMetadata, value: string, draws: Draws)
    returns (id: string)
    requires Initialised(start, dek, password) && SafeNames(NameOf(meta)) && meta.id == ""
    ensures var s := Complete(start, CreateSecret(meta, value), draws);
            && Reachable(s, dek) && s.keys.Some? && s.tasks == map[]
            && IsKind(s.tables, id, SecretObject) && RowName(s.tables.objects[id]) == NameOf(meta)
            && RecordsLast(s.tables, Replay(s.history), id)
  {
    var s := Complete(start, CreateSecret(meta, value), draws);
    InitialisedIsOK(start, dek, password);
    CreateRefines(start, dek, meta, value, draws);
    InitialisedIsReachable(start, dek, password);
    CompleteReachable(start, dek, CreateSecret(meta, value), draws);
    ReachableIsOK(s, dek);
    assert NameStored(s.tables, NameOf(meta));
    id :| IsKind(s.tables, id, SecretObject) && RowName(s.tables.objects[id]) == NameOf(meta);
  }
}
