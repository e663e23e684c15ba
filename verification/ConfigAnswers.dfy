/** Every call of the configuration manager, case by case: what it answers, and what the state is
    afterwards. */
module ConfigAnswers {
  import opened CText
  import opened SshHost
  import opened SshParse
  import opened HostJson
  import opened HostTable
  import opened ConfigSteps
  import opened ConfigReload

  // ---- places and credentials ----------------------------------------------

  /** The URL names endpoint, bucket and key in this order, with a slash between them. */
  lemma PlaceReads(r: R2)
    ensures var p, e, b := Place(r), |r.endpoint|, |r.endpoint| + 1 + |r.bucket|;
            && |p| == b + 1 + |r.objectKey| && p[..e] == r.endpoint && p[e] == '/'
            && p[e + 1..b] == r.bucket && p[b] == '/' && p[b + 1..] == r.objectKey
  {
  }

  /** A start finds the credentials of the file, or none but the default object key; they count as
      configured if nothing but the key is missing. */
  lemma RestartMeans(env: Env, s: State)
    ensures var t := Step(env, s, Restart).state;
            && Step(env, s, Restart).rc == 0 && t.mode == FirstRun && t.hosts == [] && t.password == ""
            && t.remote == s.remote && t.config == s.config && t.r2File == s.r2File
            && match s.r2File
               case None => t.r2 == R2("", "", "", "", "sshpad-config.spd") && !t.configured
               case Some(r) =>
                 t.r2 == r && (t.configured <==> "" !in {r.endpoint, r.accessKey, r.secret, r.bucket})
  {
  }

  // ---- local mode ------------------------------------------------------------

  /** Setting up local mode, and using the local file, take over what the file says, whoever wrote it,
      and nothing if there is no file; nothing else changes, and nothing at all if the settings cannot
      be saved. */
  lemma LocalSetups(home: string, env: Env, c: Coercion, s: State, saved: bool)
    requires env == SshEnv(home, c)
    ensures var loaded := if s.config.Some? then ParseConfig(home, s.config.value) else [];
            && Step(env, s, UseLocal) == Reply(s.(mode := Local, hosts := loaded), 0)
            && Step(env, s, SetupLocal(saved)) ==
                 (if saved then Reply(s.(mode := Local, hosts := loaded), 0) else Reply(s, -1))
  {
  }

  // ---- edits -----------------------------------------------------------------

  /** What has become of the stores when the list `hosts` has been synchronised. */
  predicate Synchronised(env: Env, s: State, hosts: seq<Host>, t: State) {
    match s.mode
    case Cloud => t == s.(hosts := hosts, remote := s.remote[Place(s.r2) := Sealed(s.password, env.writeJson(hosts))])
    case Local => t == s.(hosts := hosts, config := Some(env.writeText(hosts)))
    case _ => false
  }

  predicate IsCalled(hosts: seq<Host>, name: string) {
    exists i :: 0 <= i < |hosts| && hosts[i].name == name
  }

  /** A save answers 0 exactly if there is a store and it took the list; it then holds the new list.
      Otherwise the answer is -1 and only memory has the edit. */
  lemma SaveAnswers(env: Env, s: State, h: Host, put: Put)
    ensures var r, hosts := Step(env, s, SaveHost(h, put)), Save(s.hosts, h);
            if (s.mode == Cloud || s.mode == Local) && put == Done
            then r.rc == 0 && Synchronised(env, s, hosts, r.state)
            else r.rc == -1 && r.state == s.(hosts := hosts)
  {
  }

  /** A deletion answers -1 exactly if there is no such host, and then changes nothing. Otherwise it
      answers 0, whether or not the list could be stored. */
  lemma DeleteAnswers(env: Env, s: State, name: string, put: Put)
    ensures var r, hosts := Step(env, s, DeleteHost(name, put)), Delete(s.hosts, name);
            if !IsCalled(s.hosts, name) then r.rc == -1 && r.state == s
            else
              && r.rc == 0
              && if (s.mode == Cloud || s.mode == Local) && put == Done then Synchronised(env, s, hosts, r.state)
                 else r.state == s.(hosts := hosts)
  {
    var i := IndexOf(s.hosts, name);
    if i < |s.hosts| { assert IsCalled(s.hosts, name); }
  }

  // ---- unlocking -------------------------------------------------------------

  predicate Found(s: State) {
    Place(s.r2) in s.remote
  }

  /** An unlock answers -2 exactly if the network or the store fails in locked mode: no answer, another
      status, an answer without contents, or a first upload that is refused. It answers -1 outside
      locked mode, for a wrong password or an undecryptable object, and if nothing can be encrypted. */
  lemma UnlockAnswers(env: Env, s: State, pw: string, get: Get, put: Put)
    ensures var r := Step(env, s, Unlock(pw, get, put));
            && r.rc in {0, -1, -2}
            && (r.rc == -2 <==> s.mode == Locked && (get != Answered || (if Found(s) then s.remote[Place(s.r2)].Hollow?
                                                                         else put == Failed)))
            && (r.rc == 0 <==> s.mode == Locked && get == Answered
                               && if Found(s) then s.remote[Place(s.r2)] == Sealed(pw, Body(s)) else put == Done)
  {
  }

  function Body(s: State): Json {
    if Found(s) && s.remote[Place(s.r2)].Sealed? then s.remote[Place(s.r2)].body else JNull
  }

  /** After a successful unlock the list is what the object contains, or empty if there was none; an
      empty list is then stored under the password. */
  lemma UnlockOpens(env: Env, s: State, pw: string, get: Get, put: Put)
    requires Step(env, s, Unlock(pw, get, put)).rc == 0
    ensures var t := Step(env, s, Unlock(pw, get, put)).state;
            if Found(s) then t == s.(mode := Cloud, password := Cut(pw, 255), hosts := env.readJson(Body(s)))
            else t == s.(mode := Cloud, password := Cut(pw, 255), hosts := [],
                         remote := s.remote[Place(s.r2) := Sealed(pw, JArray([]))])
  {
  }

  /** The wizard stores the credentials first and the settings next; only then are the credentials taken
      over, the store locked and an unlock tried. Any failure answers -1. */
  lemma CloudSetups(env: Env, s: State, to: R2, pw: string, r2Saved: bool, settingsSaved: bool, get: Get, put: Put)
    ensures var r := Step(env, s, SetupCloud(to, pw, r2Saved, settingsSaved, get, put));
            var locked := s.(r2File := Some(to), r2 := to, configured := true, mode := Locked);
            var u := Step(env, locked, Unlock(pw, get, put));
            && (!r2Saved ==> r == Reply(s, -1))
            && (r2Saved && !settingsSaved ==> r == Reply(s.(r2File := Some(to)), -1))
            && (r2Saved && settingsSaved && u.rc == 0 ==> r == u)
            && (r2Saved && settingsSaved && u.rc != 0 ==> r == Reply(locked, -1))
  {
  }

  // ---- password and credentials ----------------------------------------------

  /** A change of password answers -1 outside cloud mode and for a wrong old password, -2 if the list
      cannot be stored under the new one. */
  lemma PasswordAnswers(env: Env, s: State, oldPw: string, newPw: string, put: Put)
    requires |s.password| <= 255
    ensures var r := Step(env, s, ChangePassword(oldPw, newPw, put));
            if s.mode != Cloud || s.password != oldPw then r == Reply(s, -1)
            else if put != Done then r == Reply(s, -2)
            else r.rc == 0 && Synchronised(env, s.(password := Cut(newPw, 255)), s.hosts, r.state)
  {
  }

  predicate EndsInStars(secret: string) {
    exists shown :: 0 <= shown <= |secret| && secret == secret[..shown] + "****"
  }

  lemma StarsMasked(secret: string)
    ensures EndsInStars(secret) <==> Masked(secret)
  {
    if Masked(secret) { assert secret == secret[..|secret| - 4] + "****"; }
    if shown :| 0 <= shown <= |secret| && secret == secret[..shown] + "****" {
      assert (secret[..shown] + "****")[shown..] == "****";
    }
  }

  /** Of a secret of more than four characters only the first four are shown; everything else is. */
  lemma ShownMeans(r: R2)
    ensures Shown(r) == r.(secret := Shown(r).secret)
    ensures |r.secret| <= 4 ==> Shown(r).secret == r.secret
    ensures |r.secret| > 4 ==> |Shown(r).secret| == 8 && Shown(r).secret[..4] == r.secret[..4]
                               && Shown(r).secret[4..] == "****"
  {
  }

  /** New credentials, with the current secret in place of one that ends in four stars: outside cloud
      mode they are taken over; in cloud mode the list is stored at their place first, and if that
      fails they are not, and the file is written back. */
  lemma CredentialsAnswer(env: Env, s: State, to: R2, saved: bool, put: Put, restored: bool)
    requires |s.r2.secret| <= 255
    ensures var r := Step(env, s, SetR2(to, saved, put, restored));
            var r2 := if EndsInStars(to.secret) then to.(secret := s.r2.secret) else to;
            var written := if saved then Some(r2) else s.r2File;
            if s.mode != Cloud then r == Reply(s.(r2 := r2, r2File := written), 0)
            else match put
              case NotSealed => r == Reply(s, -1)
              case Failed => r == Reply(s.(r2File := if restored then Some(s.r2) else written), -1)
              case Done =>
                r == Reply(s.(r2 := r2, r2File := written,
                              remote := s.remote[Place(r2) := Sealed(s.password, env.writeJson(s.hosts))]), 0)
  {
    StarsMasked(to.secret);
  }
}
