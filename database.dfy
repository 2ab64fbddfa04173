/** Choosing and normalising the database URL, and the engine options that follow from it. */
module Database {
  import opened Wrappers
  import opened Strings

  /** Used when `DATABASE_URL` is not set: a SQLite file next to the process. */
  const DefaultUrl: string := "sqlite:///./pnl.db"

  /** The scheme some hosted Postgres providers hand out ... */
  const ShortScheme: string := "postgres://"
  /** ... and the one SQLAlchemy accepts. */
  const LongScheme: string := "postgresql://"

  const CheckSameThread: string := "check_same_thread"

  /** `os.getenv("DATABASE_URL", DefaultUrl)`, given the variable's value if it is set. */
  function ConfiguredUrl(env: Option<string>): (url: string)
    ensures env.None? ==> url == DefaultUrl
    ensures env.Some? ==> url == env.value
  {
    match env
    case None => DefaultUrl
    case Some(v) => v
  }

  /** Rewrites a leading `postgres://` to `postgresql://`; any other URL is kept. */
  function NormalizeUrl(url: string): (r: string)
    ensures !StartsWith(url, ShortScheme) ==> r == url
    ensures StartsWith(url, ShortScheme) ==> r == LongScheme + url[|ShortScheme|..] && |r| == |url| + 2
    ensures !StartsWith(r, ShortScheme)
  {
    if StartsWith(url, ShortScheme) then
      assert LongScheme[..|ShortScheme|] != ShortScheme by {
        assert LongScheme[8] != ShortScheme[8];
      }
      ReplaceFirst(url, ShortScheme, LongScheme)
    else url
  }

  /** Normalising twice is normalising once. */
  lemma NormalizeIdempotent(url: string)
    ensures NormalizeUrl(NormalizeUrl(url)) == NormalizeUrl(url)
  {
  }

  /** The arguments handed to `create_engine`. */
  datatype EngineConfig = EngineConfig(url: string, connectArgs: map<string, bool>)

  /** The engine set up at import time, given the environment variable's value. */
  function Engine(env: Option<string>): (e: EngineConfig)
    ensures e.url == NormalizeUrl(ConfiguredUrl(env))
    ensures CheckSameThread in e.connectArgs <==> Contains(e.url, "sqlite")
    ensures CheckSameThread in e.connectArgs ==> !e.connectArgs[CheckSameThread]
    ensures e.connectArgs.Keys <= {CheckSameThread}
  {
    var url := NormalizeUrl(ConfiguredUrl(env));
    if Contains(url, "sqlite") then EngineConfig(url, map[CheckSameThread := false])
    else EngineConfig(url, map[])
  }

  /** With no environment variable the service runs on the local SQLite file, with thread checks off. */
  lemma DefaultEngineIsSqlite()
    ensures Engine(None) == EngineConfig(DefaultUrl, map[CheckSameThread := false])
  {
    assert DefaultUrl[0] != ShortScheme[0];
    assert NormalizeUrl(DefaultUrl) == DefaultUrl;
    assert DefaultUrl[..6] == "sqlite";
    assert OccursAt(DefaultUrl, "sqlite", 0);
  }

  /** A Postgres URL in the short form is rewritten and gets no SQLite-only argument. */
  lemma {:induction false} ShortPostgresEngine(rest: string)
    requires !Contains(rest, "sqlite")
    ensures Engine(Some(ShortScheme + rest)) == EngineConfig(LongScheme + rest, map[])
  {
    var url := ShortScheme + rest;
    assert url[..|ShortScheme|] == ShortScheme;
    assert url[|ShortScheme|..] == rest;
    var r := LongScheme + rest;
    forall j: nat ensures !OccursAt(r, "sqlite", j) {
      if j >= |LongScheme| {
        if j + 6 <= |r| {
          assert r[j..j + 6] == rest[j - |LongScheme|..j - |LongScheme| + 6];
          assert !OccursAt(rest, "sqlite", j - |LongScheme|);
        }
      } else if j + 6 <= |r| {
        var m := r[j..j + 6];
        if j == 2 {
          assert m[1] == r[3] == 't';
        } else if j == 7 {
          assert m[3] == r[10] == ':';
        } else {
          assert m[0] == r[j] == LongScheme[j] != 's';
        }
        assert m != "sqlite";
      }
    }
  }
}
