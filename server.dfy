/**
 * Server mode once its flags are parsed (main.go `server`): the `--backend`
 * override, the terminal `--keygen` branch, the deprecation warning for
 * `--key`, and the fallbacks of host, port, key material and auth to the
 * environment and to defaults.
 */
module Server {
  import opened Settings

  /** The server flags as the flag package leaves them. */
  datatype ServerFlags = ServerFlags(
    key: string, keyFile: string, authFile: string, auth: string,
    keepAlive: int,  // a duration in nanoseconds, passed through
    proxy: string, backend: string, socks5: bool, reverse: bool,
    tlsKey: string, tlsCert: string, tlsDomains: seq<string>, tlsCA: string,
    host: string, p: string, port: string,
    pid: bool, verbose: bool, keyGen: string)

  datatype TlsConfig = TlsConfig(key: string, cert: string, domains: seq<string>, ca: string)

  /** `chserver.Config`, as far as this entry point fills it in. */
  datatype ServerConfig = ServerConfig(
    keySeed: string, keyFile: string, authFile: string, auth: string,
    keepAlive: int, proxy: string, socks5: bool, reverse: bool, tls: TlsConfig)

  /** How the server path ends once the flags are parsed. */
  datatype ServerRun =
    /** `--keygen`: write a key file from the seed, then return; no server is built. */
    | GenerateKey(path: string, seed: string)
    /**
     * Build a server from `config` and start it on `host:port`;
     * `deprecated` says whether the `--key` deprecation notice is logged.
     */
    | Serve(config: ServerConfig, host: string, port: string,
            deprecated: bool, debug: bool, writePid: bool)

  const DefaultHost: string := "0.0.0.0"
  const DefaultPort: string := "8080"

  /** The names `settings.Env` is asked for; the key file's comes first. */
  const KeyFileVar: string := "KEY_FILE"
  const KeyVar: string := "KEY"

  /** The configuration exactly as the flags give it, before any override. */
  function FromFlags(f: ServerFlags): ServerConfig
  {
    ServerConfig(f.key, f.keyFile, f.authFile, f.auth, f.keepAlive, f.proxy,
                 f.socks5, f.reverse, TlsConfig(f.tlsKey, f.tlsCert, f.tlsDomains, f.tlsCA))
  }

  /**
   * The resolved server run, stated by precedence chains: each setting is
   * the first non-empty of its sources.
   */
  function ServerSpec(f: ServerFlags, env: Env): (r: ServerRun)
    ensures r.GenerateKey? <==> f.keyGen != ""
    ensures r.Serve? ==> r.host != "" && r.port != ""
  {
    if f.keyGen != "" then GenerateKey(f.keyGen, f.key)
    else
      var config := FromFlags(f).(
        proxy := FirstNonEmpty([f.backend, f.proxy]),
        keyFile := FirstNonEmpty([f.keyFile, Getenv(env, KeyFileVar)]),
        keySeed := if f.keyFile == "" then f.key else FirstNonEmpty([f.key, Getenv(env, KeyVar)]),
        auth := FirstNonEmpty([f.auth, Getenv(env, "AUTH")]));
      Serve(config,
            FirstNonEmpty([f.host, Getenv(env, "HOST"), DefaultHost]),
            FirstNonEmpty([f.port, f.p, Getenv(env, "PORT"), DefaultPort]),
            f.key != "", f.verbose, f.pid)
  }

  /**
   * The body of `server` between flag parsing and building the server: a
   * chain of checks that overwrite the configuration and the host and port
   * one step at a time.
   */
  method ResolveServer(f: ServerFlags, env: Env) returns (run: ServerRun)
    ensures run == ServerSpec(f, env)
  {
    var config := FromFlags(f);
    var host, port := f.host, f.port;
    if f.backend != "" {
      config := config.(proxy := f.backend);
    }
    if f.keyGen != "" {
      return GenerateKey(f.keyGen, config.keySeed);
    }
    var deprecated := config.keySeed != "";
    if host == "" {
      host := Getenv(env, "HOST");
    }
    if host == "" {
      host := DefaultHost;
    }
    if port == "" {
      port := f.p;
    }
    if port == "" {
      port := Getenv(env, "PORT");
    }
    if port == "" {
      port := DefaultPort;
    }
    if config.keyFile == "" {
      config := config.(keyFile := Getenv(env, KeyFileVar));
    } else if config.keySeed == "" {
      config := config.(keySeed := Getenv(env, KeyVar));
    }
    if config.auth == "" {
      config := config.(auth := Getenv(env, "AUTH"));
    }
    run := Serve(config, host, port, deprecated, f.verbose, f.pid);
    ServeSpec(f, env);
  }

  /** `ServerSpec` with each precedence chain written out as nested choices. */
  lemma ServeSpec(f: ServerFlags, env: Env)
    requires f.keyGen == ""
    ensures ServerSpec(f, env) == Serve(
      FromFlags(f).(
        proxy := if f.backend != "" then f.backend else f.proxy,
        keyFile := if f.keyFile != "" then f.keyFile else Getenv(env, KeyFileVar),
        keySeed := if f.keyFile == "" || f.key != "" then f.key else Getenv(env, KeyVar),
        auth := if f.auth != "" then f.auth else Getenv(env, "AUTH")),
      if f.host != "" then f.host else if Getenv(env, "HOST") != "" then Getenv(env, "HOST") else DefaultHost,
      if f.port != "" then f.port else if f.p != "" then f.p
      else if Getenv(env, "PORT") != "" then Getenv(env, "PORT") else DefaultPort,
      f.key != "", f.verbose, f.pid)
  {
    SpecChains(f, env);
  }

  /** The precedence chains of `ServerSpec`, written out source by source. */
  lemma SpecChains(f: ServerFlags, env: Env)
    ensures FirstNonEmpty([f.backend, f.proxy]) == if f.backend != "" then f.backend else f.proxy
    ensures FirstNonEmpty([f.keyFile, Getenv(env, KeyFileVar)]) == if f.keyFile != "" then f.keyFile else Getenv(env, KeyFileVar)
    ensures FirstNonEmpty([f.key, Getenv(env, KeyVar)]) == if f.key != "" then f.key else Getenv(env, KeyVar)
    ensures FirstNonEmpty([f.auth, Getenv(env, "AUTH")]) == if f.auth != "" then f.auth else Getenv(env, "AUTH")
    ensures FirstNonEmpty([f.host, Getenv(env, "HOST"), DefaultHost])
            == if f.host != "" then f.host else if Getenv(env, "HOST") != "" then Getenv(env, "HOST") else DefaultHost
    ensures FirstNonEmpty([f.port, f.p, Getenv(env, "PORT"), DefaultPort])
            == if f.port != "" then f.port else if f.p != "" then f.p
               else if Getenv(env, "PORT") != "" then Getenv(env, "PORT") else DefaultPort
  {
    Chain2(f.backend, f.proxy);
    Chain2(f.keyFile, Getenv(env, KeyFileVar));
    Chain2(f.key, Getenv(env, KeyVar));
    Chain2(f.auth, Getenv(env, "AUTH"));
    Chain3(f.host, Getenv(env, "HOST"), DefaultHost);
    Chain4(f.port, f.p, Getenv(env, "PORT"), DefaultPort);
  }

  /** The host is `--host`, else `HOST`, else 0.0.0.0; the port is `--port`, else `-p`, else `PORT`, else 8080. */
  lemma HostAndPort(f: ServerFlags, env: Env)
    requires f.keyGen == ""
    ensures var run := ServerSpec(f, env);
      && run.host == (if f.host != "" then f.host
                      else if Getenv(env, "HOST") != "" then Getenv(env, "HOST")
                      else DefaultHost)
      && run.port == (if f.port != "" then f.port
                      else if f.p != "" then f.p
                      else if Getenv(env, "PORT") != "" then Getenv(env, "PORT")
                      else DefaultPort)
      && run.host != "" && run.port != ""
  {
    SpecChains(f, env);
  }

  /**
   * Key material: without `--keyfile` the key file comes from `KEY_FILE`
   * and the seed stays as given; with `--keyfile` the file stays as given
   * and an empty seed is filled from `KEY`.
   */
  lemma KeyMaterial(f: ServerFlags, env: Env)
    requires f.keyGen == ""
    ensures var c := ServerSpec(f, env).config;
      && (f.keyFile == "" ==> c.keyFile == Getenv(env, KeyFileVar) && c.keySeed == f.key)
      && (f.keyFile != "" ==> c.keyFile == f.keyFile
                              && c.keySeed == if f.key != "" then f.key else Getenv(env, KeyVar))
  {
    SpecChains(f, env);
  }

  /**
   * Only one of the two key lookups takes effect on a run: without
   * `--keyfile` the run does not depend on `KEY`, and with it the run does
   * not depend on `KEY_FILE`.
   */
  lemma KeyLookupsExclusive(f: ServerFlags, env: Env, x: string)
    ensures f.keyFile == "" ==> ServerSpec(f, env[KeyVar := x]) == ServerSpec(f, env)
    ensures f.keyFile != "" ==> ServerSpec(f, env[KeyFileVar := x]) == ServerSpec(f, env)
  {
    if f.keyFile == "" {
      GetenvOther(env, KeyVar, x, KeyFileVar);
      GetenvOther(env, KeyVar, x, "AUTH");
      GetenvOther(env, KeyVar, x, "HOST");
      GetenvOther(env, KeyVar, x, "PORT");
    } else {
      GetenvOther(env, KeyFileVar, x, KeyVar);
      GetenvOther(env, KeyFileVar, x, "AUTH");
      GetenvOther(env, KeyFileVar, x, "HOST");
      GetenvOther(env, KeyFileVar, x, "PORT");
    }
  }

  /**
   * `--keygen` ends the path before any environment fallback: its outcome
   * depends only on the flags, and uses the seed exactly as `--key` gave it.
   */
  lemma KeyGenIsTerminal(f: ServerFlags, env: Env, env': Env)
    ensures ServerSpec(f, env).GenerateKey? <==> f.keyGen != ""
    ensures f.keyGen != "" ==> ServerSpec(f, env) == ServerSpec(f, env') == GenerateKey(f.keyGen, f.key)
  {
  }

  /** A non-empty `--backend` replaces the proxy; an empty one leaves `--proxy` as it is. */
  lemma BackendOverridesProxy(f: ServerFlags, env: Env)
    requires f.keyGen == ""
    ensures ServerSpec(f, env).config.proxy == if f.backend != "" then f.backend else f.proxy
  {
    SpecChains(f, env);
  }

  /**
   * The deprecation notice is decided before the `KEY` fallback: it depends
   * on `--key` alone, so a seed that comes from the environment never
   * triggers it.
   */
  lemma DeprecationFromFlagOnly(f: ServerFlags, env: Env)
    requires f.keyGen == ""
    ensures ServerSpec(f, env).deprecated <==> f.key != ""
    ensures f.key == "" && f.keyFile != "" && Getenv(env, KeyVar) != "" ==>
              ServerSpec(f, env).config.keySeed != "" && !ServerSpec(f, env).deprecated
  {
    SpecChains(f, env);
  }

  /** Auth is `--auth`, else `AUTH`; the other configuration fields are the flags' own. */
  lemma AuthAndPassThrough(f: ServerFlags, env: Env)
    requires f.keyGen == ""
    ensures var c := ServerSpec(f, env).config;
      && c.auth == (if f.auth != "" then f.auth else Getenv(env, "AUTH"))
      && c.authFile == f.authFile && c.keepAlive == f.keepAlive
      && c.socks5 == f.socks5 && c.reverse == f.reverse
      && c.tls == TlsConfig(f.tlsKey, f.tlsCert, f.tlsDomains, f.tlsCA)
  {
    SpecChains(f, env);
  }

  /** `server --port 1234` with an empty environment: host 0.0.0.0, port 1234. */
  lemma PortFlagScenario(f: ServerFlags)
    requires f.keyGen == "" && f.host == "" && f.port == "1234"
    ensures ServerSpec(f, map[]).host == "0.0.0.0" && ServerSpec(f, map[]).port == "1234"
  {
    HostAndPort(f, map[]);
  }

  /** No `--port` and no `-p`: `PORT=9999` gives 9999, and no `PORT` gives 8080. */
  lemma PortEnvironmentScenario(f: ServerFlags, env: Env)
    requires f.keyGen == "" && f.port == "" && f.p == "" && "PORT" !in env
    ensures ServerSpec(f, env).port == "8080"
    ensures ServerSpec(f, env["PORT" := "9999"]).port == "9999"
  {
    HostAndPort(f, env);
    HostAndPort(f, env["PORT" := "9999"]);
  }
}
