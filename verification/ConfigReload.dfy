/** Persist, then reload: what a fresh start finds after any run of edits. */
module ConfigReload {
  import opened CText
  import opened SshHost
  import opened SshParse
  import opened SshPrint
  import opened RoundTrip
  import opened HostJson
  import opened HostTable
  import opened ConfigSteps
  import opened ConfigRuns

  /** The conversions of the program. */
  function SshEnv(home: string, c: Coercion): Env {
    Env(t => ParseConfig(home, t), PrintConfig, ToJson, j => FromJson(c, j))
  }

  // ---- every list in memory fits the records -----------------------------

  predicate AllFit(hs: seq<Host>) {
    forall h :: h in hs ==> Fits(h)
  }

  ghost predicate EnvFits(env: Env) {
    (forall t :: AllFit(env.readText(t))) && (forall j :: AllFit(env.readJson(j)))
  }

  lemma ShapeFits(h: Host)
    requires HostShape(h)
    ensures Fits(h)
  {
  }

  lemma SshEnvFits(home: string, c: Coercion)
    requires HomeOk(home) && CoercionOk(c)
    ensures EnvFits(SshEnv(home, c))
  {
    forall t: string ensures AllFit(ParseConfig(home, t)) {
      ParsedShape(home, t);
      forall h | h in ParseConfig(home, t) ensures Fits(h) { ShapeFits(h); }
    }
    forall j: Json ensures AllFit(FromJson(c, j)) {
      if j.JArray? {
        forall i | 0 <= i < |j.items| ensures Fits(ReadHost(c, j.items[i])) { ReadFits(c, j.items[i]); }
      }
    }
  }

  /** A caller hands over a record. */
  predicate Typed(op: Op) {
    op.SaveHost? ==> Fits(op.host)
  }

  lemma SaveFits(hs: seq<Host>, h: Host)
    requires AllFit(hs) && Fits(h)
    ensures AllFit(Save(hs, h))
  {
  }

  lemma DeleteFits(hs: seq<Host>, name: string)
    requires AllFit(hs)
    ensures AllFit(Delete(hs, name))
  {
  }

  lemma SyncKeepsHosts(env: Env, s: State, put: Put)
    ensures Sync(env, s, put).state.hosts == s.hosts
  {
  }

  lemma StepFits(env: Env, s: State, op: Op)
    requires EnvFits(env) && Typed(op) && AllFit(s.hosts)
    ensures AllFit(Step(env, s, op).state.hosts)
  {
    if IsEdit(op) {
      EditThenSync(env, s, op);
      SyncKeepsHosts(env, s.(hosts := EditOne(s.hosts, op)), op.put);
      if op.SaveHost? { SaveFits(s.hosts, op.host); } else { DeleteFits(s.hosts, op.name); }
    }
  }

  lemma {:induction false} RunFits(env: Env, s: State, ops: seq<Op>)
    requires EnvFits(env) && AllFit(s.hosts) && forall op :: op in ops ==> Typed(op)
    ensures AllFit(Exec(env, s, ops).hosts)
  {
    if ops != [] {
      RunFits(env, s, ops[..|ops| - 1]);
      assert ops[|ops| - 1] in ops;
      StepFits(env, Exec(env, s, ops[..|ops| - 1]), ops[|ops| - 1]);
    }
  }

  // ---- reloading ---------------------------------------------------------

  predicate Edits(ops: seq<Op>) {
    forall op :: op in ops ==> IsEdit(op) && Typed(op)
  }

  lemma RereadWritten(env: Env, s: State, edits: seq<Op>)
    requires s.mode == Local && Edits(edits) && Published(s.hosts, edits).Some?
    ensures Step(env, Exec(env, s, edits), UseLocal).state.hosts
         == env.readText(env.writeText(Published(s.hosts, edits).value))
  {
    EditsPublish(env, s, edits);
  }

  lemma TextRoundTrips(home: string, env: Env, c: Coercion, hs: seq<Host>)
    requires HomeOk(home) && env == SshEnv(home, c)
    ensures env.readText(env.writeText(hs)) == hs <==> forall h :: h in hs ==> HostShape(h) && Stable(h)
  {
    RoundTrips(home, hs);
  }

  /** Local mode: after any run, any edits and `cm_use_local`, the list in memory is the one that
      was last written if and only if every host of it survives the text format. */
  lemma LocalReload(home: string, env: Env, c: Coercion, s: State, edits: seq<Op>)
    requires HomeOk(home) && env == SshEnv(home, c)
    requires s.mode == Local && Edits(edits) && Published(s.hosts, edits).Some?
    ensures var written := Published(s.hosts, edits).value;
            Step(env, Exec(env, s, edits), UseLocal).state.hosts == written
            <==> forall h :: h in written ==> HostShape(h) && Stable(h)
  {
    RereadWritten(env, s, edits);
    TextRoundTrips(home, env, c, Published(s.hosts, edits).value);
  }

  /** A restart, and setting up the same place with the stored password. */
  function Reopened(env: Env, s: State): Reply {
    var t := Step(env, s, Restart).state;
    Step(env, t, SetupCloud(s.r2, s.password, true, true, Answered, Failed))
  }

  lemma ReopenedHolds(env: Env, s: State)
    requires Agrees(s)
    ensures Reopened(env, s).rc == 0
    ensures Reopened(env, s).state.mode == Cloud
    ensures Reopened(env, s).state.hosts == env.readJson(s.remote[Place(s.r2)].body)
  {
  }

  lemma EditedAgrees(env: Env, s: State, hosts: seq<Host>, published: seq<Host>)
    requires s.mode == Cloud
    ensures var t := Edited(env, s, hosts, Some(published));
            Agrees(t) && t.remote[Place(t.r2)].body == env.writeJson(published)
  {
  }

  lemma {:induction false} PublishedFits(hosts: seq<Host>, ops: seq<Op>)
    requires AllFit(hosts) && Edits(ops)
    ensures AllFit(EditAll(hosts, ops))
    ensures Published(hosts, ops).Some? ==> AllFit(Published(hosts, ops).value)
  {
    if ops != [] {
      var prefix, op := ops[..|ops| - 1], ops[|ops| - 1];
      assert op in ops;
      PublishedFits(hosts, prefix);
      if op.SaveHost? {
        SaveFits(EditAll(hosts, prefix), op.host);
      } else {
        DeleteFits(EditAll(hosts, prefix), op.name);
      }
    }
  }

  /** Cloud mode: after any run from a start, and any edits of which one reached the store,
      a restart and a fresh unlock succeed and give the list as last published, without generic
      options and with port 0 read as 22. */
  lemma CloudReload(home: string, env: Env, c: Coercion, remote: map<string, Blob>, config: Maybe<string>,
                    r2File: Maybe<R2>, ops: seq<Op>, edits: seq<Op>)
    requires HomeOk(home) && CoercionOk(c) && env == SshEnv(home, c)
    requires forall op :: op in ops ==> Typed(op)
    requires var s := Exec(env, Create(remote, config, r2File), ops);
             s.mode == Cloud && Edits(edits) && Published(s.hosts, edits).Some?
    ensures var s := Exec(env, Create(remote, config, r2File), ops);
            var published := Published(s.hosts, edits).value;
            var r := Reopened(env, Exec(env, s, edits));
            && r.rc == 0 && r.state.mode == Cloud && r.state.hosts == Map(Stored, published)
            && (r.state.hosts == published <==> forall h :: h in published ==> Storable(h))
  {
    var s0 := Create(remote, config, r2File);
    SshEnvFits(home, c);
    RunFits(env, s0, ops);
    CloudReloadFrom(home, env, c, Exec(env, s0, ops), edits);
  }

  lemma CloudReloadFrom(home: string, env: Env, c: Coercion, s: State, edits: seq<Op>)
    requires CoercionOk(c) && env == SshEnv(home, c)
    requires AllFit(s.hosts) && s.mode == Cloud && Edits(edits) && Published(s.hosts, edits).Some?
    ensures var published := Published(s.hosts, edits).value;
            var r := Reopened(env, Exec(env, s, edits));
            && r.rc == 0 && r.state.mode == Cloud && r.state.hosts == Map(Stored, published)
            && (r.state.hosts == published <==> forall h :: h in published ==> Storable(h))
  {
    var published := Published(s.hosts, edits).value;
    PublishedFits(s.hosts, edits);
    EditsPublish(env, s, edits);
    EditedAgrees(env, s, EditAll(s.hosts, edits), published);
    ReopenedHolds(env, Exec(env, s, edits));
    ListBack(c, published);
    JsonRoundTrips(c, published);
  }

  // ---- reloading after any run --------------------------------------------

  /** What a fresh unlock finds after a run: what is kept of the list that was last synchronised, by
      an edit or by a change of password or credentials; or the list that was found, if none was. */
  function Reloaded(env: Env, s: State, ops: seq<Op>): Maybe<seq<Host>> {
    if ops == [] then None else
      var before := Exec(env, s, ops[..|ops| - 1]);
      var op := ops[|ops| - 1];
      var after := Step(env, before, op);
      if Stores(before, op) then Some(Map(Stored, after.state.hosts))
      else if (op.Unlock? || op.SetupCloud?) && after.rc == 0 then Some(after.state.hosts)
      else Reloaded(env, s, ops[..|ops| - 1])
  }

  lemma UnlockLoads(env: Env, s: State, op: Op)
    requires (op.Unlock? || op.SetupCloud?) && Step(env, s, op).rc == 0 && env.readJson(JArray([])) == []
    ensures var t := Step(env, s, op).state;
            t.hosts == env.readJson(if Place(t.r2) in s.remote && s.remote[Place(t.r2)].Sealed?
                                    then s.remote[Place(t.r2)].body else JArray([]))
  {
  }

  /** Reading back what was written keeps what is stored of a list that fits. */
  ghost predicate JsonBack(env: Env) {
    && env.readJson(JArray([])) == []
    && forall hs :: AllFit(hs) ==> env.readJson(env.writeJson(hs)) == Map(Stored, hs)
  }

  lemma SshJsonBack(home: string, c: Coercion)
    ensures JsonBack(SshEnv(home, c))
  {
    forall hs: seq<Host> | AllFit(hs) ensures FromJson(c, ToJson(hs)) == Map(Stored, hs) { ListBack(c, hs); }
  }

  lemma {:induction false} ReloadedIsRead(env: Env, s: State, ops: seq<Op>)
    requires EnvFits(env) && JsonBack(env) && AllFit(s.hosts) && forall op :: op in ops ==> Typed(op)
    ensures LastSynced(env, s, ops).Some? <==> Reloaded(env, s, ops).Some?
    ensures Reloaded(env, s, ops).Some? ==> env.readJson(LastSynced(env, s, ops).value) == Reloaded(env, s, ops).value
  {
    if ops != [] {
      var front, op := ops[..|ops| - 1], ops[|ops| - 1];
      var before := Exec(env, s, front);
      ReloadedIsRead(env, s, front);
      RunFits(env, s, ops);
      if !Stores(before, op) && (op.Unlock? || op.SetupCloud?) && Step(env, before, op).rc == 0 {
        UnlockLoads(env, before, op);
      }
    }
  }

  lemma ReopenedExactly(env: Env, s: State)
    requires s.mode == Cloud && HasSealed(s)
    ensures Reopened(env, s).rc == 0 <==> Agrees(s)
  {
  }

  /** After any run from a start that ends in cloud mode: a restart and a fresh unlock with the stored
      password succeed if and only if the password that encrypts the remote object has at most 255
      characters, and then give what is kept of the list as last synchronised. */
  lemma CloudReloadAnyRun(home: string, env: Env, c: Coercion, remote: map<string, Blob>, config: Maybe<string>,
                          r2File: Maybe<R2>, ops: seq<Op>)
    requires HomeOk(home) && CoercionOk(c) && env == SshEnv(home, c)
    requires forall op :: op in ops ==> Typed(op)
    requires Exec(env, Create(remote, config, r2File), ops).mode == Cloud
    ensures var s0 := Create(remote, config, r2File);
            var s := Exec(env, s0, ops);
            && HasSealed(s) && (Reopened(env, s).rc == 0 <==> |s.remote[Place(s.r2)].password| <= 255)
            && (Reopened(env, s).rc == 0 ==>
                  Reopened(env, s).state.mode == Cloud && Some(Reopened(env, s).state.hosts) == Reloaded(env, s0, ops))
  {
    var s0 := Create(remote, config, r2File);
    SshEnvFits(home, c);
    SshJsonBack(home, c);
    ReloadAnyRun(env, s0, remote, config, r2File, ops);
  }

  lemma ReloadAnyRun(env: Env, s0: State, remote: map<string, Blob>, config: Maybe<string>, r2File: Maybe<R2>,
                     ops: seq<Op>)
    requires EnvFits(env) && JsonBack(env) && s0 == Create(remote, config, r2File)
    requires forall op :: op in ops ==> Typed(op)
    requires Exec(env, s0, ops).mode == Cloud
    ensures var s := Exec(env, s0, ops);
            && HasSealed(s) && (Reopened(env, s).rc == 0 <==> |s.remote[Place(s.r2)].password| <= 255)
            && (Reopened(env, s).rc == 0 ==>
                  Reopened(env, s).state.mode == Cloud && Some(Reopened(env, s).state.hosts) == Reloaded(env, s0, ops))
  {
    var s := Exec(env, s0, ops);
    CloudAgreement(env, remote, config, r2File, ops);
    RemoteHoldsLastSync(env, s0, ops);
    ReloadedIsRead(env, s0, ops);
    ReopenedExactly(env, s);
    if Agrees(s) { ReopenedHolds(env, s); }
  }

  /** An edit that reaches the local file. */
  predicate WritesLocal(s: State, op: Op) {
    s.mode == Local && IsEdit(op) && Reaches(s.hosts, op)
  }

  /** The list as of the last edit of a run that reached the local file. */
  function LastWritten(env: Env, s: State, ops: seq<Op>): Maybe<seq<Host>> {
    if ops == [] then None else
      var before, op := Exec(env, s, ops[..|ops| - 1]), ops[|ops| - 1];
      if WritesLocal(before, op) then Some(Step(env, before, op).state.hosts)
      else LastWritten(env, s, ops[..|ops| - 1])
  }

  lemma WritesConfig(env: Env, s: State, op: Op)
    ensures var t := Step(env, s, op).state;
            t.config == if WritesLocal(s, op) then Some(env.writeText(t.hosts)) else s.config
  {
    if IsEdit(op) {
      EditThenSync(env, s, op);
      SyncKeepsHosts(env, s.(hosts := EditOne(s.hosts, op)), op.put);
    } else {
      StepApart(env, s, op);
    }
  }

  /** After any run the local file holds the text of the list as of the last local edit that reached
      it, and is as it was if there was none. */
  lemma {:induction false} FileHoldsLastWritten(env: Env, s: State, ops: seq<Op>)
    ensures Exec(env, s, ops).config ==
            if LastWritten(env, s, ops).Some? then Some(env.writeText(LastWritten(env, s, ops).value)) else s.config
  {
    if ops != [] {
      FileHoldsLastWritten(env, s, ops[..|ops| - 1]);
      WritesConfig(env, Exec(env, s, ops[..|ops| - 1]), ops[|ops| - 1]);
    }
  }

  /** After any run from any state, in any mode at its end, `cm_use_local` gives the list as of the last
      local edit that reached the file if and only if every host of it survives the text format. */
  lemma LocalReloadAnyRun(home: string, env: Env, c: Coercion, s: State, ops: seq<Op>)
    requires HomeOk(home) && env == SshEnv(home, c) && LastWritten(env, s, ops).Some?
    ensures var written := LastWritten(env, s, ops).value;
            Step(env, Exec(env, s, ops), UseLocal).state.hosts == written
            <==> forall h :: h in written ==> HostShape(h) && Stable(h)
  {
    FileHoldsLastWritten(env, s, ops);
    ReloadsConfig(env, Exec(env, s, ops), LastWritten(env, s, ops).value);
    TextRoundTrips(home, env, c, LastWritten(env, s, ops).value);
  }

  lemma ReloadsConfig(env: Env, s: State, hs: seq<Host>)
    requires s.config == Some(env.writeText(hs))
    ensures Step(env, s, UseLocal).state.hosts == env.readText(env.writeText(hs))
  {
  }
}
