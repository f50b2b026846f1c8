/**
 * Application settings: the defaults and the two `pre` validators, each
 * as a function of the raw value and of the settings validated before it.
 * Loading from the environment and from `.env` is not modelled.
 */
module Config {
  import opened Wrappers
  import opened Text

  const ProjectName := "TaskPilot"
  const SecretKeyDefault := "your-secret-key-change-in-production"
  const AccessTokenExpireMinutes := 30
  const DefaultDatabaseUrl := "sqlite:///./taskpilot.db"
  const DefaultCorsOrigins := ["http://localhost:3000", "http://localhost:8080"]
  const PostgresScheme := "postgresql"

  /**
   * What a validator raises. Pydantic v1 wraps a `ValueError` in a settings
   * `ValidationError`; an `IndexError` is not one of the exceptions it
   * wraps, so it escapes from the settings constructor as it is.
   */
  datatype ConfigError = IndexError | ValueError

  /** Python truthiness of an optional string: present and non-empty. */
  predicate Truthy(v: Option<string>) {
    v.Some? && v.value != ""
  }

  // ---------------------------------------------------------------------------
  // DATABASE_URL
  // ---------------------------------------------------------------------------

  /**
   * `r` is what stands in `rest` before its first `.` and before its first
   * `//`, whichever comes first.
   */
  ghost predicate RefOf(rest: string, r: string) {
    && |r| <= |rest| && rest[..|r|] == r
    && (forall k :: 0 <= k < |r| ==> r[k] != '.')
    && (forall j :: OccursAt(rest, "//", j) ==> j >= |r|)
    && (|r| < |rest| ==> rest[|r|] == '.' || OccursAt(rest, "//", |r|))
  }

  /** A piece of a split ends at the first separator or at the end of the text. */
  lemma SplitHead(s: string, sep: string)
    requires |sep| > 0
    ensures FirstIndex(s, sep).None? ==> Split(s, sep)[0] == s
    ensures FirstIndex(s, sep).Some? ==> Split(s, sep)[0] == s[..FirstIndex(s, sep).value]
  {
  }

  /** A text contains a non-empty separator exactly when `find` locates one. */
  lemma FoundIffContains(s: string, sep: string)
    requires |sep| > 0
    ensures FirstIndex(s, sep).Some? <==> Contains(s, sep)
  {
    ContainsIff(s, sep);
    if FirstIndex(s, sep).Some? {
      ContainsAt(s, sep, FirstIndex(s, sep).value);
    }
  }

  /**
   * `supabase_url.split("//")[1].split(".")[0]`: the project reference, or
   * an `IndexError` when the URL has no `//`.
   */
  function ProjectRef(url: string): (r: Option<string>)
    ensures r.None? <==> !Contains(url, "//")
    ensures r.Some? ==> FirstIndex(url, "//").Some? && RefOf(url[FirstIndex(url, "//").value + 2..], r.value)
  {
    FoundIffContains(url, "//");
    match FirstIndex(url, "//")
    case None => None
    case Some(i) =>
      var rest := url[i + 2..];
      assert Split(url, "//") == [url[..i]] + Split(rest, "//");
      var piece := Split(rest, "//")[0];
      var r := Split(piece, ".")[0];
      RefOfPieces(rest, piece, r);
      Some(r)
  }

  /** The first piece of a split is a prefix that ends where the first separator starts, if any. */
  lemma FirstPiece(s: string, sep: string)
    requires |sep| > 0
    ensures var p := Split(s, sep)[0];
      && |p| <= |s| && s[..|p|] == p
      && (forall j :: OccursAt(s, sep, j) ==> j >= |p|)
      && (|p| < |s| ==> OccursAt(s, sep, |p|))
  {
    SplitHead(s, sep);
  }

  lemma RefOfPieces(rest: string, piece: string, r: string)
    requires piece == Split(rest, "//")[0] && r == Split(piece, ".")[0]
    ensures RefOf(rest, r)
  {
    FirstPiece(rest, "//");
    FirstPiece(piece, ".");
    assert rest[..|r|] == piece[..|r|];
    forall k | 0 <= k < |r|
      ensures r[k] != '.'
    {
      if r[k] == '.' {
        assert piece[k..k + 1] == ".";
        assert OccursAt(piece, ".", k);
      }
    }
    if |r| < |piece| {
      assert piece[|r|..|r| + 1] == ".";
      assert rest[|r|] == piece[|r|];
    }
  }

  /** The connection string for the Supabase database with this password and project. */
  function SupabaseDsn(password: string, ref: string): string {
    PostgresScheme + "://postgres:" + password + "@db." + ref + ".supabase.co:5432/postgres"
  }

  /**
   * `assemble_db_connection`: a PostgreSQL URL is kept; otherwise the
   * Supabase URL and database password, when both are non-empty, give the
   * Supabase connection string; otherwise the SQLite default, whatever else
   * was supplied. The validator is `pre` without `always`, so pydantic runs
   * it only on a `DATABASE_URL` that is supplied: with none, the settings
   * keep the SQLite default and never reach the `None` case here, which
   * states what the validator itself would answer.
   */
  function AssembleDbConnection(v: Option<string>, supabaseUrl: Option<string>, dbPassword: Option<string>)
    : (r: Result<string, ConfigError>)
    ensures v.Some? && StartsWith(v.value, PostgresScheme) ==> r == Success(v.value)
    ensures !(v.Some? && StartsWith(v.value, PostgresScheme)) && Truthy(supabaseUrl) && Truthy(dbPassword) ==>
      && (r == Failure(IndexError) <==> !Contains(supabaseUrl.value, "//"))
      && (r.Success? ==>
            ProjectRef(supabaseUrl.value).Some? && r.value == SupabaseDsn(dbPassword.value, ProjectRef(supabaseUrl.value).value))
    ensures !(v.Some? && StartsWith(v.value, PostgresScheme)) && !(Truthy(supabaseUrl) && Truthy(dbPassword)) ==>
      r == Success(DefaultDatabaseUrl)
  {
    if v.Some? && StartsWith(v.value, PostgresScheme) then Success(v.value)
    else if Truthy(supabaseUrl) && Truthy(dbPassword) then
      match ProjectRef(supabaseUrl.value)
      case None => Failure(IndexError)
      case Some(ref) => Success(SupabaseDsn(dbPassword.value, ref))
    else Success(DefaultDatabaseUrl)
  }

  /** Validating the validator's own result gives it back: the assembled URL is a PostgreSQL one or the default. */
  lemma AssembleDbConnectionIdempotent(v: Option<string>, supabaseUrl: Option<string>, dbPassword: Option<string>)
    requires AssembleDbConnection(v, supabaseUrl, dbPassword).Success?
    ensures var r := AssembleDbConnection(v, supabaseUrl, dbPassword);
      AssembleDbConnection(Some(r.value), supabaseUrl, dbPassword) == r
  {
    var r := AssembleDbConnection(v, supabaseUrl, dbPassword);
    if !(v.Some? && StartsWith(v.value, PostgresScheme)) && Truthy(supabaseUrl) && Truthy(dbPassword) {
      var dsn := r.value;
      assert dsn[..|PostgresScheme|] == PostgresScheme;
    } else if !(v.Some? && StartsWith(v.value, PostgresScheme)) {
      assert DefaultDatabaseUrl[0] == 's';
    }
  }

  /** A supplied URL that is not a PostgreSQL one plays no part in the result. */
  lemma OtherUrlDiscarded(v1: Option<string>, v2: Option<string>, supabaseUrl: Option<string>, dbPassword: Option<string>)
    requires !(v1.Some? && StartsWith(v1.value, PostgresScheme))
    requires !(v2.Some? && StartsWith(v2.value, PostgresScheme))
    ensures AssembleDbConnection(v1, supabaseUrl, dbPassword) == AssembleDbConnection(v2, supabaseUrl, dbPassword)
  {
  }

  // ---------------------------------------------------------------------------
  // BACKEND_CORS_ORIGINS
  // ---------------------------------------------------------------------------

  /** The raw value handed to the CORS validator. */
  datatype CorsInput = CorsText(text: string) | CorsList(items: seq<string>) | CorsOther

  /** What the validator passes on: a list of origins, or a text left for JSON decoding. */
  datatype CorsValue = OriginList(origins: seq<string>) | OriginText(text: string)

  /** `[i.strip() for i in parts]`. */
  function StripAll(parts: seq<string>): (r: seq<string>)
    ensures |r| == |parts|
    ensures forall k :: 0 <= k < |r| ==> r[k] == Strip(parts[k])
  {
    seq(|parts|, k requires 0 <= k < |parts| => Strip(parts[k]))
  }

  /**
   * `assemble_cors_origins`: a text not starting with `[` is cut at every
   * comma into one more piece than it has commas, each piece stripped; a
   * list and a text starting with `[` pass through; anything else is a
   * `ValueError`.
   */
  function AssembleCorsOrigins(v: CorsInput): (r: Result<CorsValue, ConfigError>)
    ensures r.Failure? <==> v.CorsOther?
    ensures r.Failure? ==> r.error == ValueError
    ensures v.CorsList? ==> r == Success(OriginList(v.items))
    ensures v.CorsText? && StartsWith(v.text, "[") ==> r == Success(OriginText(v.text))
    ensures v.CorsText? && !StartsWith(v.text, "[") ==>
      && r.Success? && r.value.OriginList?
      && |r.value.origins| == |Split(v.text, ",")| == CountChar(v.text, ',') + 1
      && forall k :: 0 <= k < |r.value.origins| ==> r.value.origins[k] == Strip(Split(v.text, ",")[k])
  {
    match v
    case CorsText(text) =>
      if !StartsWith(text, "[") then
        SplitCount(text, ',');
        Success(OriginList(StripAll(Split(text, ","))))
      else Success(OriginText(text))
    case CorsList(items) => Success(OriginList(items))
    case CorsOther => Failure(ValueError)
  }

  /** A comma-separated list of comma-free, already stripped origins is read back as those origins, in order. */
  lemma CorsRoundTrip(origins: seq<string>)
    requires |origins| >= 1
    requires forall k :: 0 <= k < |origins| ==> !Contains(origins[k], ",") && Strip(origins[k]) == origins[k]
    requires !StartsWith(Join(origins, ","), "[")
    ensures AssembleCorsOrigins(CorsText(Join(origins, ","))) == Success(OriginList(origins))
  {
    SplitJoin(origins, ",");
    StripAllKeepsStripped(origins);
  }

  lemma StripAllKeepsStripped(parts: seq<string>)
    requires forall k :: 0 <= k < |parts| ==> Strip(parts[k]) == parts[k]
    ensures StripAll(parts) == parts
  {
  }
}
