/** What every run of the configuration manager keeps. */
module ConfigRuns {
  import opened CText
  import opened SshHost
  import opened HostJson
  import opened HostTable
  import opened ConfigSteps

  // ---- the remote object and the stored password ------------------------

  predicate HasSealed(s: State) {
    Place(s.r2) in s.remote && s.remote[Place(s.r2)].Sealed?
  }

  /** The remote object opens under the password the manager holds. */
  predicate Agrees(s: State) {
    HasSealed(s) && s.remote[Place(s.r2)].password == s.password
  }

  /** What holds even with overlong passwords: the manager holds the first 255 characters. */
  predicate Sound(s: State) {
    |s.password| <= 255 && (s.mode == Cloud ==> HasSealed(s) && Cut(s.remote[Place(s.r2)].password, 255) == s.password)
  }

  lemma StepSound(env: Env, s: State, op: Op)
    requires Sound(s)
    ensures Sound(Step(env, s, op).state)
  {
  }

  lemma {:induction false} RunSound(env: Env, s: State, ops: seq<Op>)
    requires Sound(s)
    ensures Sound(Exec(env, s, ops))
  {
    if ops != [] {
      RunSound(env, s, ops[..|ops| - 1]);
      StepSound(env, Exec(env, s, ops[..|ops| - 1]), ops[|ops| - 1]);
    }
  }

  /** In every reachable cloud state the object at the current place is encrypted under a
      password whose first 255 characters are the stored ones, and opens under the stored
      password exactly when that password fits. */
  lemma CloudAgreement(env: Env, remote: map<string, Blob>, config: Maybe<string>, r2File: Maybe<R2>, ops: seq<Op>)
    ensures var s := Exec(env, Create(remote, config, r2File), ops);
            s.mode == Cloud ==>
              && HasSealed(s)
              && Cut(s.remote[Place(s.r2)].password, 255) == s.password
              && (Agrees(s) <==> |s.remote[Place(s.r2)].password| <= 255)
  {
    RunSound(env, Create(remote, config, r2File), ops);
  }

  predicate ShortPassword(op: Op) {
    (op.Unlock? || op.SetupCloud?) ==> |op.pw| <= 255
  }

  lemma UnlockAgrees(env: Env, s: State, pw: string, get: Get, put: Put)
    requires |pw| <= 255 && (s.mode == Cloud ==> Agrees(s)) && |s.password| <= 255
    ensures var t := UnlockStep(env, s, pw, get, put).state; (t.mode == Cloud ==> Agrees(t)) && |t.password| <= 255
  {
  }

  lemma SetR2Agrees(env: Env, s: State, to: R2, saved: bool, put: Put, restored: bool)
    requires s.mode == Cloud ==> Agrees(s)
    ensures var t := SetR2Step(env, s, to, saved, put, restored).state;
            (t.mode == Cloud ==> Agrees(t)) && t.password == s.password
  {
  }

  lemma SyncAgrees(env: Env, s: State, put: Put)
    ensures var t := Sync(env, s, put);
            && t.state.mode == s.mode && t.state.password == s.password
            && (s.mode == Cloud && (t.rc == 0 || Agrees(s)) ==> Agrees(t.state))
  {
  }

  lemma EditAgrees(env: Env, s: State, op: Op)
    requires IsEdit(op) && (s.mode == Cloud ==> Agrees(s))
    ensures var t := Step(env, s, op).state; (t.mode == Cloud ==> Agrees(t)) && t.password == s.password
  {
    EditThenSync(env, s, op);
    SyncAgrees(env, s.(hosts := EditOne(s.hosts, op)), op.put);
  }

  lemma StepAgrees(env: Env, s: State, op: Op)
    requires ShortPassword(op) && (s.mode == Cloud ==> Agrees(s)) && |s.password| <= 255
    ensures var t := Step(env, s, op).state; (t.mode == Cloud ==> Agrees(t)) && |t.password| <= 255
  {
    if op.SetupCloud? {
      var t := s.(r2File := Some(op.to), r2 := op.to, configured := true, mode := Locked);
      UnlockAgrees(env, t, op.pw, op.get, op.put);
    } else if op.Unlock? {
      UnlockAgrees(env, s, op.pw, op.get, op.put);
    } else if op.SetR2? {
      SetR2Agrees(env, s, op.to, op.saved, op.put, op.restored);
    } else if IsEdit(op) {
      EditAgrees(env, s, op);
    }
  }

  lemma {:induction false} ShortPasswordsAgree(env: Env, s: State, ops: seq<Op>)
    requires forall op :: op in ops ==> ShortPassword(op)
    requires (s.mode == Cloud ==> Agrees(s)) && |s.password| <= 255
    ensures var t := Exec(env, s, ops); (t.mode == Cloud ==> Agrees(t)) && |t.password| <= 255
  {
    if ops != [] {
      ShortPasswordsAgree(env, s, ops[..|ops| - 1]);
      StepAgrees(env, Exec(env, s, ops[..|ops| - 1]), ops[|ops| - 1]);
    }
  }

  /** The password that opened the store opens it again after the next successful save and a
      restart if and only if it has at most 255 characters: the save uses the stored one. */
  lemma PasswordWorksAgain(env: Env, s: State, pw: string, h: Host, put: Put)
    requires s.mode == Locked && UnlockStep(env, s, pw, Answered, put).rc == 0
    ensures var t := UnlockStep(env, s, pw, Answered, put).state;
            var u := Step(env, t, SaveHost(h, Done)).state;
            var v := Step(env, u, Restart).state;
            Step(env, v, SetupCloud(s.r2, pw, true, true, Answered, put)).rc == 0 <==> |pw| <= 255
  {
  }

  // ---- what the remote object contains -----------------------------------

  /** Whether a call in state `s` stores the list successfully at the remote place. */
  predicate Stores(s: State, op: Op) {
    s.mode == Cloud &&
    match op
    case SaveHost(_, put) => put == Done
    case DeleteHost(name, put) => put == Done && IndexOf(s.hosts, name) < |s.hosts|
    case ChangePassword(o, _, put) => put == Done && o == s.password
    case SetR2(_, _, put, _) => put == Done
    case _ => false
  }

  /** The list as last synchronised with the current remote place during a run. */
  function LastSynced(env: Env, s: State, ops: seq<Op>): Maybe<Json> {
    if ops == [] then None else
      var before := Exec(env, s, ops[..|ops| - 1]);
      var op := ops[|ops| - 1];
      var after := Step(env, before, op);
      if Stores(before, op) then Some(env.writeJson(after.state.hosts))
      else if (op.Unlock? || op.SetupCloud?) && after.rc == 0 then
        Some(if Place(after.state.r2) in before.remote && before.remote[Place(after.state.r2)].Sealed?
             then before.remote[Place(after.state.r2)].body else JArray([]))
      else LastSynced(env, s, ops[..|ops| - 1])
  }

  predicate Holds(s: State, last: Maybe<Json>) {
    s.mode == Cloud ==> HasSealed(s) && last == Some(s.remote[Place(s.r2)].body)
  }

  lemma StoredBody(env: Env, s: State, op: Op)
    requires Stores(s, op)
    ensures var t := Step(env, s, op).state; Holds(t, Some(env.writeJson(t.hosts)))
  {
  }

  lemma KeptBody(env: Env, s: State, op: Op, last: Maybe<Json>)
    requires Holds(s, last) && !Stores(s, op)
    requires !((op.Unlock? || op.SetupCloud?) && Step(env, s, op).rc == 0)
    ensures Holds(Step(env, s, op).state, last)
  {
  }

  lemma FoundBody(env: Env, s: State, op: Op)
    requires (op.Unlock? || op.SetupCloud?) && Step(env, s, op).rc == 0
    ensures var t := Step(env, s, op).state;
            Holds(t, Some(if Place(t.r2) in s.remote && s.remote[Place(t.r2)].Sealed?
                          then s.remote[Place(t.r2)].body else JArray([])))
  {
  }

  /** In every reachable cloud state the remote object holds the list as of the last successful
      synchronisation, whatever failed since. */
  lemma {:induction false} RemoteHoldsLastSync(env: Env, s: State, ops: seq<Op>)
    requires s.mode != Cloud
    ensures Holds(Exec(env, s, ops), LastSynced(env, s, ops))
  {
    if ops != [] {
      RemoteHoldsLastSync(env, s, ops[..|ops| - 1]);
      var before, op := Exec(env, s, ops[..|ops| - 1]), ops[|ops| - 1];
      if Stores(before, op) {
        StoredBody(env, before, op);
      } else if (op.Unlock? || op.SetupCloud?) && Step(env, before, op).rc == 0 {
        FoundBody(env, before, op);
      } else {
        KeptBody(env, before, op, LastSynced(env, s, ops[..|ops| - 1]));
      }
    }
  }

  // ---- edits, with any failures in between --------------------------------

  predicate IsEdit(op: Op) {
    op.SaveHost? || op.DeleteHost?
  }

  function EditOne(hosts: seq<Host>, op: Op): seq<Host>
    requires IsEdit(op)
  {
    if op.SaveHost? then Save(hosts, op.host) else Delete(hosts, op.name)
  }

  function EditAll(hosts: seq<Host>, ops: seq<Op>): seq<Host>
    requires forall op :: op in ops ==> IsEdit(op)
  {
    if ops == [] then hosts else EditOne(EditAll(hosts, ops[..|ops| - 1]), ops[|ops| - 1])
  }

  /** An edit that reaches the store; a deletion that finds nothing never does. */
  predicate Reaches(hosts: seq<Host>, op: Op)
    requires IsEdit(op)
  {
    op.put == Done && (op.DeleteHost? ==> IndexOf(hosts, op.name) < |hosts|)
  }

  /** The list after the last edit that reached the store. */
  function Published(hosts: seq<Host>, ops: seq<Op>): Maybe<seq<Host>>
    requires forall op :: op in ops ==> IsEdit(op)
  {
    if ops == [] then None
    else if Reaches(EditAll(hosts, ops[..|ops| - 1]), ops[|ops| - 1]) then Some(EditAll(hosts, ops))
    else Published(hosts, ops[..|ops| - 1])
  }

  /** `s` with the list `hosts`, of which `published` has reached the store of its mode. */
  function Edited(env: Env, s: State, hosts: seq<Host>, published: Maybe<seq<Host>>): State {
    var t := s.(hosts := hosts);
    match published
    case None => t
    case Some(hs) =>
      if s.mode == Cloud then Upload(t, s.r2, s.password, env.writeJson(hs))
      else if s.mode == Local then t.(config := Some(env.writeText(hs)))
      else t
  }

  lemma EditedAgain(env: Env, s: State, hosts: seq<Host>, published: Maybe<seq<Host>>, next: seq<Host>)
    ensures Edited(env, s, hosts, published).(hosts := next) == Edited(env, s, next, published)
  {
  }

  lemma SyncEdited(env: Env, s: State, hosts: seq<Host>, published: Maybe<seq<Host>>, put: Put)
    ensures Sync(env, Edited(env, s, hosts, published), put).state
         == Edited(env, s, hosts, if put == Done then Some(hosts) else published)
  {
    if published.Some? {
      Overwritten(s.remote, Place(s.r2), Sealed(s.password, env.writeJson(published.value)),
                  Sealed(s.password, env.writeJson(hosts)));
    }
  }

  lemma Overwritten(m: map<string, Blob>, k: string, before: Blob, after: Blob)
    ensures m[k := before][k := after] == m[k := after]
  {
  }

  /** An edit is a change of the list in memory, followed by a synchronisation unless a deletion
      found nothing. */
  lemma EditThenSync(env: Env, s: State, op: Op)
    requires IsEdit(op)
    ensures Step(env, s, op).state ==
            if op.DeleteHost? && IndexOf(s.hosts, op.name) == |s.hosts| then s
            else Sync(env, s.(hosts := EditOne(s.hosts, op)), op.put).state
  {
  }

  lemma EditedHosts(env: Env, s: State, hosts: seq<Host>, published: Maybe<seq<Host>>)
    ensures Edited(env, s, hosts, published).hosts == hosts
  {
  }

  lemma EditStep(env: Env, s: State, hosts: seq<Host>, published: Maybe<seq<Host>>, op: Op, t: State)
    requires IsEdit(op) && t == Edited(env, s, hosts, published)
    ensures Step(env, t, op).state
         == Edited(env, s, EditOne(hosts, op), if Reaches(hosts, op) then Some(EditOne(hosts, op)) else published)
  {
    EditThenSync(env, t, op);
    EditedHosts(env, s, hosts, published);
    if op.DeleteHost? && IndexOf(hosts, op.name) == |hosts| {
      assert EditOne(hosts, op) == hosts;
    } else {
      var next := EditOne(hosts, op);
      EditedAgain(env, s, hosts, published, next);
      SyncEdited(env, s, next, published, op.put);
    }
  }

  /** Any run of edits: all of them take effect in memory, the store of the current mode holds
      exactly the edits up to the last one that reached it, and nothing else changes. */
  lemma {:induction false} EditsPublish(env: Env, s: State, ops: seq<Op>)
    requires forall op :: op in ops ==> IsEdit(op)
    ensures Exec(env, s, ops) == Edited(env, s, EditAll(s.hosts, ops), Published(s.hosts, ops))
  {
    if ops != [] {
      var prefix := ops[..|ops| - 1];
      EditsPublish(env, s, prefix);
      EditStep(env, s, EditAll(s.hosts, prefix), Published(s.hosts, prefix), ops[|ops| - 1], Exec(env, s, prefix));
    }
  }

  function MapEdited(m: map<string, Host>, op: Op): map<string, Host>
    requires IsEdit(op)
  {
    if op.SaveHost? then m[op.host.name := op.host] else m - {op.name}
  }

  function MapAll(m: map<string, Host>, ops: seq<Op>): map<string, Host>
    requires forall op :: op in ops ==> IsEdit(op)
  {
    if ops == [] then m else MapEdited(MapAll(m, ops[..|ops| - 1]), ops[|ops| - 1])
  }

  /** Any run of edits on a list of distinct names is the same run on a finite map. */
  lemma {:induction false} EditsRefineMap(hosts: seq<Host>, ops: seq<Op>)
    requires Distinct(hosts) && forall op :: op in ops ==> IsEdit(op)
    ensures ToMap(EditAll(hosts, ops)) == MapAll(ToMap(hosts), ops) && Distinct(EditAll(hosts, ops))
  {
    if ops != [] {
      var prefix, op := ops[..|ops| - 1], ops[|ops| - 1];
      assert op in ops;
      EditsRefineMap(hosts, prefix);
      if op.SaveHost? {
        SaveIsUpdate(EditAll(hosts, prefix), op.host);
      } else {
        DeleteIsRemoval(EditAll(hosts, prefix), op.name);
      }
    }
  }

  // ---- modes and stores ---------------------------------------------------

  /** Cloud mode is entered by a successful unlock only. */
  lemma CloudEntry(env: Env, s: State, op: Op)
    requires s.mode != Cloud && Step(env, s, op).state.mode == Cloud
    ensures Step(env, s, op).rc == 0
    ensures op.SetupCloud? || (op.Unlock? && s.mode == Locked)
    ensures Agrees(Step(env, s, op).state) <==> |op.pw| <= 255
  {
  }

  /** A refused unlock changes nothing, not even remotely. */
  lemma RefusedUnlock(env: Env, s: State, pw: string, get: Get, put: Put)
    ensures UnlockStep(env, s, pw, get, put).rc != 0 ==> UnlockStep(env, s, pw, get, put).state == s
    ensures UnlockStep(env, s, pw, get, put).rc == 0 <==>
              && s.mode == Locked && get == Answered
              && if Place(s.r2) in s.remote then s.remote[Place(s.r2)].Sealed? && s.remote[Place(s.r2)].password == pw
                 else put == Done
  {
  }

  lemma UnlockApart(env: Env, s: State, pw: string, get: Get, put: Put)
    ensures var t := UnlockStep(env, s, pw, get, put).state;
            (t.mode == s.mode || t.mode == Cloud) && (t.remote != s.remote ==> t.mode == Cloud) && t.config == s.config
  {
  }

  lemma StepApart(env: Env, s: State, op: Op)
    ensures var t := Step(env, s, op).state;
            && (t.remote != s.remote ==> t.mode == Cloud)
            && (t.config != s.config ==> s.mode == Local && t.mode == Local && IsEdit(op))
            && (t.mode == FirstRun ==> s.mode == FirstRun || op.Restart?)
  {
    if op.SetupCloud? {
      var t := s.(r2File := Some(op.to), r2 := op.to, configured := true, mode := Locked);
      UnlockApart(env, t, op.pw, op.get, op.put);
    } else if IsEdit(op) {
      EditThenSync(env, s, op);
    }
  }

  /** The first-run mode is never entered again, short of a restart. */
  lemma {:induction false} NeverFirstRunAgain(env: Env, s: State, ops: seq<Op>)
    requires s.mode != FirstRun && Restart !in ops
    ensures Exec(env, s, ops).mode != FirstRun
  {
    if ops != [] {
      NeverFirstRunAgain(env, s, ops[..|ops| - 1]);
      StepApart(env, Exec(env, s, ops[..|ops| - 1]), ops[|ops| - 1]);
    }
  }

  /** Outside cloud mode, a run without an unlock leaves the remote store alone. */
  lemma {:induction false} LocalRunKeepsRemote(env: Env, s: State, ops: seq<Op>)
    requires s.mode != Cloud && forall op :: op in ops ==> !op.Unlock? && !op.SetupCloud?
    ensures Exec(env, s, ops).mode != Cloud && Exec(env, s, ops).remote == s.remote
  {
    if ops != [] {
      LocalRunKeepsRemote(env, s, ops[..|ops| - 1]);
      assert ops[|ops| - 1] in ops;
      StepApart(env, Exec(env, s, ops[..|ops| - 1]), ops[|ops| - 1]);
    }
  }

  /** Outside local mode, a run that does not switch to it leaves the local file alone. */
  lemma {:induction false} CloudRunKeepsConfig(env: Env, s: State, ops: seq<Op>)
    requires s.mode != Local && forall op :: op in ops ==> !op.UseLocal? && !op.SetupLocal?
    ensures Exec(env, s, ops).mode != Local && Exec(env, s, ops).config == s.config
  {
    if ops != [] {
      CloudRunKeepsConfig(env, s, ops[..|ops| - 1]);
      assert ops[|ops| - 1] in ops;
      StepApart(env, Exec(env, s, ops[..|ops| - 1]), ops[|ops| - 1]);
    }
  }

  /** The places a state knows of: in use, in the credentials file, by default. */
  function Places(s: State): set<string> {
    {Place(s.r2), Place(NO_R2)} + (if s.r2File.Some? then {Place(s.r2File.value)} else {})
  }

  function Named(op: Op): set<string> {
    if op.SetupCloud? || op.SetR2? then {Place(op.to)} else {}
  }

  lemma AdoptedPlace(current: R2, to: R2)
    ensures Place(Adopted(current, to)) == Place(to)
  {
  }

  lemma PlacesGrow(env: Env, s: State, op: Op)
    ensures Places(Step(env, s, op).state) <= Places(s) + Named(op)
  {
    if op.SetR2? { AdoptedPlace(s.r2, op.to); }
  }

  /** A step writes at most the object at the place then in use. */
  lemma StepWrites(env: Env, s: State, op: Op, k: string)
    requires k != Place(Step(env, s, op).state.r2)
    ensures var t := Step(env, s, op).state;
            (k in t.remote <==> k in s.remote) && (k in s.remote ==> t.remote[k] == s.remote[k])
  {
  }

  /** No object is ever touched but at the places the manager was told about. */
  lemma {:induction false} OtherObjectsUntouched(env: Env, s: State, ops: seq<Op>, k: string)
    requires k !in Places(s) && forall op :: op in ops ==> k !in Named(op)
    ensures var t := Exec(env, s, ops);
            && k !in Places(t) && (k in t.remote <==> k in s.remote)
            && (k in s.remote ==> t.remote[k] == s.remote[k])
  {
    if ops != [] {
      OtherObjectsUntouched(env, s, ops[..|ops| - 1], k);
      assert ops[|ops| - 1] in ops;
      PlacesGrow(env, Exec(env, s, ops[..|ops| - 1]), ops[|ops| - 1]);
      StepWrites(env, Exec(env, s, ops[..|ops| - 1]), ops[|ops| - 1], k);
    }
  }

  // ---- rolling back -------------------------------------------------------

  /** In the cloud modes the credentials file holds the credentials in use. */
  predicate FileAgrees(s: State) {
    s.mode == Locked || s.mode == Cloud ==> s.r2File == Some(s.r2)
  }

  /** The files written by this call are written. */
  predicate FilesSaved(op: Op) {
    (op.SetupCloud? ==> op.r2Saved ==> op.settingsSaved) && (op.SetR2? ==> op.saved && op.restored)
  }

  lemma StepFile(env: Env, s: State, op: Op)
    requires FileAgrees(s) && FilesSaved(op)
    ensures FileAgrees(Step(env, s, op).state)
  {
  }

  lemma {:induction false} FileFollows(env: Env, s: State, ops: seq<Op>)
    requires FileAgrees(s) && forall op :: op in ops ==> FilesSaved(op)
    ensures FileAgrees(Exec(env, s, ops))
  {
    if ops != [] {
      FileFollows(env, s, ops[..|ops| - 1]);
      assert ops[|ops| - 1] in ops;
      StepFile(env, Exec(env, s, ops[..|ops| - 1]), ops[|ops| - 1]);
    }
  }

  /** After any run in which the files could be written, a failing change of the password in any
      mode, and a failing change of the credentials, restore the whole state. */
  lemma FailedChangesRollBack(env: Env, remote: map<string, Blob>, config: Maybe<string>, r2File: Maybe<R2>,
                              ops: seq<Op>, op: Op)
    requires forall o :: o in ops ==> FilesSaved(o)
    requires op.ChangePassword? || (op.SetR2? && FilesSaved(op))
    ensures var s := Exec(env, Create(remote, config, r2File), ops);
            Step(env, s, op).rc != 0 ==> Step(env, s, op).state == s
  {
    var s := Create(remote, config, r2File);
    RunSound(env, s, ops);
    FileFollows(env, s, ops);
  }

  /** A changed password takes effect locally and remotely together, or not at all. */
  lemma PasswordChanges(env: Env, s: State, oldPw: string, newPw: string, put: Put)
    requires Sound(s)
    ensures var t := ChangePasswordStep(env, s, oldPw, newPw, put);
            if s.mode == Cloud && oldPw == s.password && put == Done
            then t.rc == 0 && Agrees(t.state) && t.state.password == Cut(newPw, 255)
                 && t.state.remote == s.remote[Place(s.r2) := Sealed(Cut(newPw, 255), env.writeJson(s.hosts))]
            else t.rc != 0 && t.state == s
  {
  }

  // ---- the masked secret --------------------------------------------------

  /** Sending back the credentials as shown leaves those in use unchanged, whatever the secret. */
  lemma ShownComesBack(env: Env, s: State, saved: bool, put: Put, restored: bool)
    requires |s.r2.secret| <= 255
    ensures SetR2Step(env, s, Shown(s.r2), saved, put, restored).state.r2 == s.r2
  {
    if |s.r2.secret| > 4 {
      assert (s.r2.secret[..4] + STARS)[4..] == STARS;
    }
  }

  /** New credentials are taken over as given if and only if the secret does not end in four
      stars, or is the current one. */
  lemma SecretTaken(env: Env, s: State, to: R2, saved: bool, restored: bool)
    requires |s.r2.secret| <= 255
    ensures SetR2Step(env, s, to, saved, Done, restored).state.r2 == to
            <==> !Masked(to.secret) || to.secret == s.r2.secret
  {
  }
}
