/** The backend base URL and the two URL builders every component uses
    (`API_BASE_URL`, `apiUrl`, `publicUrl`). The environment variables are
    parameters: `None` stands for a variable that is not set. */
module ApiConfig {
  import opened Wrappers

  const DefaultBase: string := "http://localhost:5000"

  /** The two places a base URL can come from: the Vite variable and the
      older Create-React-App variable. */
  datatype Env = Env(viteBase: Option<string>, craBase: Option<string>)

  /** JavaScript truthiness of an optional string: set and non-empty. */
  predicate Truthy(v: Option<string>) {
    v.Some? && v.value != ""
  }

  /** A run of `k` slashes. */
  function Slashes(k: nat): (r: string)
    ensures |r| == k
  {
    if k == 0 then "" else "/" + Slashes(k - 1)
  }

  lemma {:induction false} SlashesSnoc(k: nat)
    ensures Slashes(k) + "/" == Slashes(k + 1)
  {
    if k > 0 {
      SlashesSnoc(k - 1);
      assert Slashes(k) + "/" == "/" + (Slashes(k - 1) + "/");
    }
  }

  /** `s.replace(/\/+$/, "")` */
  function TrimTrailingSlashes(s: string): (r: string)
    ensures |r| <= |s| && s == r + Slashes(|s| - |r|)
    ensures r == [] || r[|r| - 1] != '/'
  {
    if s != [] && s[|s| - 1] == '/' then
      var r := TrimTrailingSlashes(s[..|s| - 1]);
      SlashesSnoc(|s| - 1 - |r|);
      assert s == s[..|s| - 1] + "/";
      r
    else s
  }

  /** `s.replace(/^\/+/, "")` */
  function TrimLeadingSlashes(s: string): (r: string)
    ensures |r| <= |s| && s == Slashes(|s| - |r|) + r
    ensures r == [] || r[0] != '/'
  {
    if s != [] && s[0] == '/' then TrimLeadingSlashes(s[1..]) else s
  }

  /** A string with no leading slash is its own trimmed form. */
  lemma TrimLeadingNoSlash(s: string)
    requires s == [] || s[0] != '/'
    ensures TrimLeadingSlashes(s) == s
  {
  }

  lemma TrimLeadingOneSlash(s: string)
    ensures TrimLeadingSlashes("/" + s) == TrimLeadingSlashes(s)
  {
    assert ("/" + s)[1..] == s;
  }

  /** Removing leading slashes is idempotent, and one more leading slash
      makes no difference. */
  lemma {:induction false} TrimLeadingIdempotent(s: string)
    ensures TrimLeadingSlashes(TrimLeadingSlashes(s)) == TrimLeadingSlashes(s)
    ensures TrimLeadingSlashes("/" + s) == TrimLeadingSlashes(s)
  {
    TrimLeadingNoSlash(TrimLeadingSlashes(s));
    TrimLeadingOneSlash(s);
  }

  /** `API_BASE_URL`: the first truthy of the two variables, else the local
      default, with trailing slashes removed. */
  function ApiBaseUrl(env: Env): (r: string)
    ensures r == [] || r[|r| - 1] != '/'
    ensures !Truthy(env.viteBase) && !Truthy(env.craBase) ==> r == DefaultBase
  {
    var chosen :=
      if Truthy(env.viteBase) then env.viteBase.value
      else if Truthy(env.craBase) then env.craBase.value
      else DefaultBase;
    TrimTrailingSlashes(chosen)
  }

  /** The join shared by `apiUrl` and the VR overlay's `vrApiUrl`: a falsy
      path gives the base itself; otherwise the base, one slash, and the path
      without its leading slashes. */
  function JoinUrl(base: string, path: Option<string>): (r: string)
    ensures !Truthy(path) ==> r == base
    ensures Truthy(path) ==>
      && |r| > |base| && r[..|base|] == base && r[|base|] == '/'
      && (|r| == |base| + 1 || r[|base| + 1] != '/')
      && |r| - |base| - 1 <= |path.value|
      && path.value == Slashes(|path.value| - (|r| - |base| - 1)) + r[|base| + 1..]
  {
    if !Truthy(path) then base else base + "/" + TrimLeadingSlashes(path.value)
  }

  /** `apiUrl(path)` */
  function ApiUrl(env: Env, path: Option<string>): string {
    JoinUrl(ApiBaseUrl(env), path)
  }

  /** `publicUrl(filePath)`: a falsy file path counts as "". */
  function PublicUrl(env: Env, filePath: Option<string>): string {
    ApiUrl(env, Some("public/" + TrimLeadingSlashes(if Truthy(filePath) then filePath.value else "")))
  }

  // ---------------------------------------------------------------------------
  // Properties
  // ---------------------------------------------------------------------------

  /** A missing or empty path yields the base unchanged. */
  lemma ApiUrlOfEmptyPath(env: Env, path: Option<string>)
    requires !Truthy(path)
    ensures ApiUrl(env, path) == ApiBaseUrl(env)
  {
  }

  /** A non-empty path: the base, exactly one slash, then the path with all
      of its leading slashes removed. */
  lemma ApiUrlOfPath(env: Env, p: string)
    requires p != ""
    ensures ApiUrl(env, Some(p)) == ApiBaseUrl(env) + "/" + TrimLeadingSlashes(p)
    ensures var r, b := ApiUrl(env, Some(p)), ApiBaseUrl(env);
      |r| > |b| && r[..|b|] == b && r[|b|] == '/'
      && (b == [] || b[|b| - 1] != '/')
      && (|r| == |b| + 1 || r[|b| + 1] != '/')
  {
  }

  /** Any number of extra leading slashes is removed along with the rest. */
  lemma {:induction false} TrimLeadingAfterSlashes(k: nat, p: string)
    ensures TrimLeadingSlashes(Slashes(k) + p) == TrimLeadingSlashes(p)
  {
    if k == 0 {
      assert Slashes(k) + p == p;
    } else {
      var rest := Slashes(k - 1) + p;
      TrimLeadingAfterSlashes(k - 1, p);
      assert Slashes(k) + p == "/" + rest;
      TrimLeadingOneSlash(rest);
    }
  }

  /** `apiUrl("/x") == apiUrl("///x") == apiUrl("x")`: any number of leading
      slashes on a non-empty path gives the same URL. */
  lemma ApiUrlIgnoresLeadingSlashes(env: Env, p: string, k: nat)
    requires p != ""
    ensures ApiUrl(env, Some(Slashes(k) + p)) == ApiUrl(env, Some(p))
  {
    TrimLeadingAfterSlashes(k, p);
    ApiUrlOfPath(env, p);
    ApiUrlOfPath(env, Slashes(k) + p);
  }


  /** Joining a path that has no leading slash puts it after one slash. */
  lemma JoinOfPlainPath(b: string, q: string)
    requires q != "" && q[0] != '/'
    ensures JoinUrl(b, Some(q)) == b + "/" + q
    ensures JoinUrl(b, Some(q)) != b
  {
    TrimLeadingNoSlash(q);
  }

  /** `publicUrl(f)` is `apiUrl` of "public/" and `f` without its leading
      slashes; a missing `f` still yields base + "/public/", never the bare
      base. */
  lemma PublicUrlShape(env: Env, filePath: Option<string>)
    ensures Truthy(filePath) ==>
      PublicUrl(env, filePath) == ApiUrl(env, Some("public/" + TrimLeadingSlashes(filePath.value)))
    ensures !Truthy(filePath) ==> PublicUrl(env, filePath) == ApiBaseUrl(env) + "/" + "public/"
    ensures PublicUrl(env, filePath) != ApiBaseUrl(env)
  {
    var t := TrimLeadingSlashes(if Truthy(filePath) then filePath.value else "");
    var q := "public/" + t;
    assert q[0] == 'p';
    JoinOfPlainPath(ApiBaseUrl(env), q);
    if !Truthy(filePath) {
      assert t == "";
      assert q == "public/";
    }
  }
}
