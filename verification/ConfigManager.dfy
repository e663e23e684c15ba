/** The configuration manager itself. Each method changes the fields as the call does; its
    effect is the step of `ConfigSteps` of the same name. */
module ConfigManager {
  import opened CText
  import opened SshHost
  import opened HostJson
  import opened HostTable
  import opened ConfigSteps

  class Manager {
    const env: Env
    var mode: Mode
    var hosts: seq<Host>
    var r2: R2
    var configured: bool
    var password: string
    /** The bucket and the files it works on. */
    var remote: map<string, Blob>
    var config: Maybe<string>
    var r2File: Maybe<R2>

    function View(): State
      reads this
    {
      State(mode, hosts, r2, configured, password, remote, config, r2File)
    }

    constructor (env: Env, remote: map<string, Blob>, config: Maybe<string>, r2File: Maybe<R2>)
      ensures View() == Create(remote, config, r2File) && this.env == env
    {
      this.env := env;
      mode, hosts, password := FirstRun, [], "";
      this.remote, this.config, this.r2File := remote, config, r2File;
      r2, configured := NO_R2, false;
      new;
      match r2File
      case None =>
      case Some(r) => {
        r2 := r;
        if Complete(r) { configured := true; }
      }
    }

    method PutObject(at: R2, blob: Blob, put: Put) returns (ok: bool)
      modifies this`remote
      ensures ok == (put == Done)
      ensures remote == if ok then old(remote)[Place(at) := blob] else old(remote)
    {
      ok := put == Done;
      if ok { remote := remote[Place(at) := blob]; }
    }

    method SyncHosts(put: Put) returns (rc: int)
      modifies this`remote, this`config
      ensures Reply(View(), rc) == Sync(env, old(View()), put)
    {
      rc := -1;
      var json := env.writeJson(hosts);
      if mode == Cloud {
        var ok := PutObject(r2, Sealed(password, json), put);
        if ok { rc := 0; }
      } else if mode == Local {
        if put == Done { config, rc := Some(env.writeText(hosts)), 0; }
      }
    }

    method UnlockWith(pw: string, get: Get, put: Put) returns (rc: int)
      modifies this
      ensures Reply(View(), rc) == UnlockStep(env, old(View()), pw, get, put)
    {
      if mode != Locked { return -1; }
      if get != Answered { return -2; }
      var at := Place(r2);
      if at !in remote {
        if put == NotSealed { return -1; }
        var ok := PutObject(r2, Sealed(pw, JArray([])), put);
        if !ok { return -2; }
        hosts, mode, password := [], Cloud, Cut(pw, 255);
        return 0;
      }
      match remote[at]
      case Hollow => return -2;
      case Foreign => return -1;
      case Sealed(p, body) => {
        if p != pw { return -1; }
        hosts, mode, password := env.readJson(body), Cloud, Cut(pw, 255);
        return 0;
      }
    }

    method UseLocalFile()
      modifies this`hosts, this`mode
      ensures View() == UseLocalStep(env, old(View()))
    {
      hosts := [];
      if config.Some? { hosts := env.readText(config.value); }
      mode := Local;
    }

    method SetupForLocal(saved: bool) returns (rc: int)
      modifies this`hosts, this`mode
      ensures Reply(View(), rc) == Step(env, old(View()), SetupLocal(saved))
    {
      if !saved { return -1; }
      UseLocalFile();
      return 0;
    }

    method SetupForCloud(to: R2, pw: string, r2Saved: bool, settingsSaved: bool, get: Get, put: Put)
      returns (rc: int)
      modifies this
      ensures Reply(View(), rc) == SetupCloudStep(env, old(View()), to, pw, r2Saved, settingsSaved, get, put)
    {
      if !r2Saved { return -1; }
      r2File := Some(to);
      if !settingsSaved { return -1; }
      r2, configured, mode := to, true, Locked;
      rc := UnlockWith(pw, get, put);
      if rc != 0 { rc := -1; }
    }

    /** The first host of that name, or -1. */
    method Search(name: string) returns (found: int)
      ensures found == if IndexOf(hosts, name) < |hosts| then IndexOf(hosts, name) else -1
    {
      var i := 0;
      while i < |hosts|
        invariant i <= |hosts| && IndexOf(hosts, name) == IndexOf(hosts, name, i)
      {
        if hosts[i].name == name { return i; }
        i := i + 1;
      }
      return -1;
    }

    method SaveOne(host: Host, put: Put) returns (rc: int)
      modifies this
      ensures Reply(View(), rc) == Step(env, old(View()), SaveHost(host, put))
    {
      var found := Search(host.name);
      if found >= 0 {
        hosts := hosts[found := host];
      } else {
        hosts := hosts + [host];
      }
      rc := SyncHosts(put);
    }

    method DeleteOne(name: string, put: Put) returns (rc: int)
      modifies this
      ensures Reply(View(), rc) == DeleteStep(env, old(View()), name, put)
    {
      var found := Search(name);
      if found < 0 { return -1; }
      hosts := hosts[..found] + hosts[found + 1..];
      var _ := SyncHosts(put);
      return 0;
    }

    method ReplacePassword(oldPw: string, newPw: string, put: Put) returns (rc: int)
      modifies this
      ensures Reply(View(), rc) == ChangePasswordStep(env, old(View()), oldPw, newPw, put)
    {
      if mode != Cloud { return -1; }
      if password != oldPw { return -1; }
      var saved := Cut(password, 255);
      password := Cut(newPw, 255);
      rc := SyncHosts(put);
      if rc != 0 {
        password := Cut(saved, 255);
        return -2;
      }
    }

    /** A longer secret is shown as its first four characters and four stars, a shorter one as it
        is; everything else is shown. */
    method ReadR2() returns (r: R2)
      ensures r == Shown(r2) && r.(secret := r2.secret) == r2
      ensures |r2.secret| > 4 ==> |r.secret| == 8 && r.secret[..4] == r2.secret[..4] && r.secret[4..] == "****"
      ensures |r2.secret| > 4 ==> Masked(r.secret) && Adopted(r2, r).secret == Cut(r2.secret, 255)
      ensures |r2.secret| <= 4 ==> r == r2
    {
      r := r2;
      if |r.secret| > 4 { r := r.(secret := r.secret[..4] + STARS); }
    }

    method ReplaceR2(to: R2, saved: bool, put: Put, restored: bool) returns (rc: int)
      modifies this
      ensures Reply(View(), rc) == SetR2Step(env, old(View()), to, saved, put, restored)
    {
      var changed := true;
      if |to.secret| >= 4 && to.secret[|to.secret| - 4..] == STARS { changed := false; }
      var current := Cut(r2.secret, 255);
      var next := to;
      if !changed { next := next.(secret := current); }
      if mode == Cloud {
        var json := env.writeJson(hosts);
        if put == NotSealed { return -1; }
        if saved { r2File := Some(next); }
        var ok := PutObject(next, Sealed(password, json), put);
        if !ok {
          if restored { r2File := Some(r2); }
          return -1;
        }
        r2 := next;
        return 0;
      }
      r2 := next;
      if saved { r2File := Some(r2); }
      return 0;
    }
  }
}
