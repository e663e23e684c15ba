/** The configuration manager as a state machine: one step per call. What the network and the
    file system answer is part of the call. */
module ConfigSteps {
  import opened CText
  import opened SshHost
  import opened HostJson
  import opened HostTable

  datatype Mode = FirstRun | Locked | Cloud | Local

  datatype R2 = R2(endpoint: string, accessKey: string, secret: string, bucket: string, objectKey: string)

  /** What `r2_config_load` leaves behind when there is no file. */
  const NO_R2 := R2("", "", "", "", "sshpad-config.spd")

  /** The URL an object is fetched from and stored at. */
  function Place(r: R2): string {
    r.endpoint + "/" + r.bucket + "/" + r.objectKey
  }

  /** A stored object: encrypted under a password, undecryptable, or of length zero. */
  datatype Blob = Sealed(password: string, body: Json) | Foreign | Hollow

  /** The text and tree conversions the manager calls. */
  datatype Env = Env(readText: string -> seq<Host>, writeText: seq<Host> -> string,
                     writeJson: seq<Host> -> Json, readJson: Json -> seq<Host>)

  /** A GET: an answer from the store (200, or 404 when nothing is there), status 0, another status. */
  datatype Get = Answered | Unreachable | Refused

  /** Storing a list: done, refused by the store or the file system, or not even encrypted. */
  datatype Put = Done | Failed | NotSealed

  datatype State = State(
    mode: Mode, hosts: seq<Host>, r2: R2, configured: bool, password: string,
    remote: map<string, Blob>, config: Maybe<string>, r2File: Maybe<R2>)

  datatype Op =
    | Restart
    | Unlock(pw: string, get: Get, put: Put)
    | SetupLocal(saved: bool)
    | SetupCloud(to: R2, pw: string, r2Saved: bool, settingsSaved: bool, get: Get, put: Put)
    | SaveHost(host: Host, put: Put)
    | DeleteHost(name: string, put: Put)
    | ChangePassword(oldPw: string, newPw: string, put: Put)
    | SetR2(to: R2, saved: bool, put: Put, restored: bool)
    | UseLocal

  datatype Reply = Reply(state: State, rc: int)

  function Complete(r: R2): bool {
    r.endpoint != "" && r.accessKey != "" && r.secret != "" && r.bucket != ""
  }

  /** `cm_create`: only the stored credentials are looked at. */
  function Create(remote: map<string, Blob>, config: Maybe<string>, r2File: Maybe<R2>): State {
    var r2 := if r2File.Some? then r2File.value else NO_R2;
    State(FirstRun, [], r2, r2File.Some? && Complete(r2), "", remote, config, r2File)
  }

  function Upload(s: State, r2: R2, password: string, body: Json): State {
    s.(remote := s.remote[Place(r2) := Sealed(password, body)])
  }

  /** `cm_sync`. */
  function Sync(env: Env, s: State, put: Put): Reply {
    match s.mode
    case Cloud =>
      if put == Done then Reply(Upload(s, s.r2, s.password, env.writeJson(s.hosts)), 0) else Reply(s, -1)
    case Local =>
      if put == Done then Reply(s.(config := Some(env.writeText(s.hosts))), 0) else Reply(s, -1)
    case _ => Reply(s, -1)
  }

  function Opened(s: State, pw: string, hosts: seq<Host>): State {
    s.(mode := Cloud, hosts := hosts, password := Cut(pw, 255))
  }

  /** `cm_unlock`. */
  function UnlockStep(env: Env, s: State, pw: string, get: Get, put: Put): Reply {
    var at := Place(s.r2);
    if s.mode != Locked then Reply(s, -1)
    else if get != Answered then Reply(s, -2)
    else if at !in s.remote then
      match put
      case NotSealed => Reply(s, -1)
      case Failed => Reply(s, -2)
      case Done => Reply(Opened(Upload(s, s.r2, pw, JArray([])), pw, []), 0)
    else match s.remote[at]
      case Hollow => Reply(s, -2)
      case Foreign => Reply(s, -1)
      case Sealed(p, body) =>
        if p == pw then Reply(Opened(s, pw, env.readJson(body)), 0) else Reply(s, -1)
  }

  function LoadConfig(env: Env, s: State): seq<Host> {
    if s.config.Some? then env.readText(s.config.value) else []
  }

  /** `cm_use_local`; `cm_setup` in local mode does the same once its settings are saved. */
  function UseLocalStep(env: Env, s: State): State {
    s.(hosts := LoadConfig(env, s), mode := Local)
  }

  /** `cm_setup` in cloud mode. */
  function SetupCloudStep(env: Env, s: State, to: R2, pw: string, r2Saved: bool, settingsSaved: bool,
                          get: Get, put: Put): Reply {
    if !r2Saved then Reply(s, -1)
    else if !settingsSaved then Reply(s.(r2File := Some(to)), -1)
    else
      var t := s.(r2File := Some(to), r2 := to, configured := true, mode := Locked);
      var u := UnlockStep(env, t, pw, get, put);
      Reply(u.state, if u.rc == 0 then 0 else -1)
  }

  function DeleteStep(env: Env, s: State, name: string, put: Put): Reply {
    if IndexOf(s.hosts, name) == |s.hosts| then Reply(s, -1)
    else Reply(Sync(env, s.(hosts := Delete(s.hosts, name)), put).state, 0)
  }

  /** `cm_change_password`. */
  function ChangePasswordStep(env: Env, s: State, oldPw: string, newPw: string, put: Put): Reply {
    if s.mode != Cloud || s.password != oldPw then Reply(s, -1)
    else
      var t := Sync(env, s.(password := Cut(newPw, 255)), put);
      if t.rc == 0 then t else Reply(t.state.(password := Cut(s.password, 255)), -2)
  }

  const STARS := "****"

  predicate Masked(secret: string) {
    |secret| >= 4 && secret[|secret| - 4..] == STARS
  }

  /** `cm_get_r2_config`: four characters of a longer secret are shown. */
  function Shown(r: R2): R2 {
    if |r.secret| > 4 then r.(secret := r.secret[..4] + STARS) else r
  }

  /** A secret that ends in four stars stands for the current one. */
  function Adopted(current: R2, to: R2): R2 {
    if Masked(to.secret) then to.(secret := Cut(current.secret, 255)) else to
  }

  /** `cm_set_r2_config`. */
  function SetR2Step(env: Env, s: State, to: R2, saved: bool, put: Put, restored: bool): Reply {
    var r2 := Adopted(s.r2, to);
    var t := if saved then s.(r2File := Some(r2)) else s;
    if s.mode != Cloud then Reply(t.(r2 := r2), 0)
    else match put
      case NotSealed => Reply(s, -1)
      case Failed => Reply(if restored then t.(r2File := Some(s.r2)) else t, -1)
      case Done => Reply(Upload(t, r2, s.password, env.writeJson(s.hosts)).(r2 := r2), 0)
  }

  function Step(env: Env, s: State, op: Op): Reply {
    match op
    case Restart => Reply(Create(s.remote, s.config, s.r2File), 0)
    case Unlock(pw, get, put) => UnlockStep(env, s, pw, get, put)
    case SetupLocal(saved) => if saved then Reply(UseLocalStep(env, s), 0) else Reply(s, -1)
    case SetupCloud(to, pw, a, b, get, put) => SetupCloudStep(env, s, to, pw, a, b, get, put)
    case SaveHost(h, put) => Sync(env, s.(hosts := Save(s.hosts, h)), put)
    case DeleteHost(name, put) => DeleteStep(env, s, name, put)
    case ChangePassword(o, n, put) => ChangePasswordStep(env, s, o, n, put)
    case SetR2(to, saved, put, restored) => SetR2Step(env, s, to, saved, put, restored)
    case UseLocal => Reply(UseLocalStep(env, s), 0)
  }

  /** The state after a run. */
  function Exec(env: Env, s: State, ops: seq<Op>): State {
    if ops == [] then s else Step(env, Exec(env, s, ops[..|ops| - 1]), ops[|ops| - 1]).state
  }
}
