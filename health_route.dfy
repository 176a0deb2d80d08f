/**
 * `GET /api/health` (src/app/api/health/route.ts): reads three environment
 * presence flags, probes the database and the auth service when the two public
 * settings are present, and folds the two check results into an overall status,
 * a message and an HTTP status code.
 *
 * The remote client is not modelled: each awaited call is replaced by what it
 * produced (a result with or without an `error`, or an exception), given as input.
 */
module HealthRoute {
  import opened Wrappers
  import opened Text
  import opened JsErrors

  /** `envCheck`: the three `!!process.env.X` presence flags and `NODE_ENV` as given. */
  datatype Environment = Environment(
    supabaseUrl: bool,
    anonKey: bool,
    serviceRoleKey: bool,
    nodeEnv: Option<string>)

  /** The status of one check (`checks.database.status`, `checks.auth.status`). */
  datatype CheckStatus = Unknown | Ok | Error | NotConfigured {
    function Name(): string {
      match this
      case Unknown => "unknown"
      case Ok => "ok"
      case Error => "error"
      case NotConfigured => "not_configured"
    }
  }

  /** One entry of `checks`: its status and the `error` text (`null` as `None`). */
  datatype Check = Check(status: CheckStatus, error: Option<string>)

  /** `overallStatus`; `Unconfigured` is the overall `'not_configured'`. */
  datatype Overall = Healthy | Degraded | Unhealthy | Unconfigured {
    function Name(): string {
      match this
      case Healthy => "healthy"
      case Degraded => "degraded"
      case Unhealthy => "unhealthy"
      case Unconfigured => "not_configured"
    }
  }

  /** What one awaited client call produced: a result whose `error` (its message) may be set, or an exception. */
  datatype Probe = Returned(error: Option<string>) | Threw(thrown: Thrown)

  /**
   * The JSON body and HTTP status the route answers with. `Report` is the normal
   * answer; `SystemFailure` is the one built by the outer `catch`.
   */
  datatype Response =
    | Report(status: Overall, message: string, environment: Environment,
             database: Check, auth: Check, httpStatus: int)
    | SystemFailure(status: Overall, message: string, error: string, httpStatus: int)

  const DummyTableMissing := "relation \"_health_check_dummy\" does not exist"
  const EnvGuidance := "環境変数が設定されていません。.env.local を確認してください。"
  const UnknownDatabaseError := "Unknown database error"
  const UnknownAuthError := "Unknown auth error"
  const UnknownError := "Unknown error"
  const SystemErrorMessage := "システムエラーが発生しました"

  const HealthyMessage := "✅ すべてのサービスが正常に動作しています"
  const DegradedMessage := "⚠️ 一部のサービスで問題が発生していますが、基本機能は利用可能です"
  const UnhealthyMessage := "❌ システムに重大な問題が発生しています"
  const UnconfiguredMessage := "🔧 環境設定が必要です。docs/setup-guide.md を参照してください"
  const UnknownStatusMessage := "❓ 不明な状態です"

  /**
   * `getStatusMessage`: the human-readable text for an overall status name, and
   * the unknown-status text for any other string.
   */
  function StatusMessage(status: string): (message: string)
    ensures message == HealthyMessage <==> status == "healthy"
    ensures message == DegradedMessage <==> status == "degraded"
    ensures message == UnhealthyMessage <==> status == "unhealthy"
    ensures message == UnconfiguredMessage <==> status == "not_configured"
    ensures message == UnknownStatusMessage <==> status !in {"healthy", "degraded", "unhealthy", "not_configured"}
  {
    if status == "healthy" then HealthyMessage
    else if status == "degraded" then DegradedMessage
    else if status == "unhealthy" then UnhealthyMessage
    else if status == "not_configured" then UnconfiguredMessage
    else UnknownStatusMessage
  }

  /** The four overall statuses get four different messages, none of them the fallback. */
  lemma StatusMessagesDistinct(a: Overall, b: Overall)
    ensures StatusMessage(a.Name()) != UnknownStatusMessage
    ensures a != b ==> StatusMessage(a.Name()) != StatusMessage(b.Name())
  {
  }

  /** Both public settings are present, so the probes run. */
  predicate ProbesEnabled(env: Environment) {
    env.supabaseUrl && env.anonKey
  }

  /**
   * `GET`. `fault` stands for an exception raised in the outer `try` outside the
   * probe phase, which the outer `catch` answers. A `createClient` failure is an
   * exception of the first probe: the same inner `catch` handles it.
   */
  method Get(env: Environment, db: Probe, auth: Probe, fault: Option<Thrown>) returns (resp: Response)
    // the outer catch
    ensures fault.Some? ==>
      resp == SystemFailure(Unhealthy, SystemErrorMessage, MessageOr(fault.value, UnknownError), 500)
    ensures fault.None? ==>
      resp.Report? && resp.environment == env && resp.message == StatusMessage(resp.status.Name())
    // a public setting is missing: no probe, guidance text in both checks
    ensures fault.None? && !ProbesEnabled(env) ==>
      && resp.database == Check(NotConfigured, Some(EnvGuidance))
      && resp.auth == Check(NotConfigured, Some(EnvGuidance))
    // a probe threw: both checks carry the exception's message
    ensures fault.None? && ProbesEnabled(env) && (db.Threw? || (db.Returned? && auth.Threw?)) ==>
      var t := if db.Threw? then db.thrown else auth.thrown;
      && resp.database == Check(Error, Some(MessageOr(t, UnknownDatabaseError)))
      && resp.auth == Check(Error, Some(MessageOr(t, UnknownAuthError)))
    // both probes returned
    ensures fault.None? && ProbesEnabled(env) && db.Returned? && auth.Returned? ==>
      && resp.database == (if db.error.None? || Contains(db.error.value, DummyTableMissing)
                           then Check(Ok, None) else Check(Error, db.error))
      && resp.auth == (if auth.error.None? then Check(Ok, None) else Check(Error, auth.error))
    // no check is left 'unknown'
    ensures resp.Report? ==> resp.database.status != Unknown && resp.auth.status != Unknown
    // the overall status
    ensures resp.Report? ==>
      (resp.status == Unhealthy <==> resp.database.status == Error || resp.auth.status == Error)
    ensures resp.Report? ==>
      (resp.status == Unconfigured <==> !ProbesEnabled(env))
    ensures resp.Report? ==>
      (resp.status == Healthy <==>
         ProbesEnabled(env) && resp.database.status == Ok && resp.auth.status == Ok)
    ensures resp.status != Degraded
    // the HTTP status code
    ensures resp.httpStatus == 500 <==> resp.status == Unhealthy
    ensures resp.httpStatus == 200 || resp.httpStatus == 500
  {
    if fault.Some? {
      resp := SystemFailure(Unhealthy, SystemErrorMessage, MessageOr(fault.value, UnknownError), 500);
      return;
    }

    var database := Check(Unknown, None);
    var authCheck := Check(Unknown, None);

    if env.supabaseUrl && env.anonKey {
      match db {
        case Threw(t) =>
          database := database.(status := Error, error := Some(MessageOr(t, UnknownDatabaseError)));
          authCheck := authCheck.(status := Error, error := Some(MessageOr(t, UnknownAuthError)));
        case Returned(dbError) =>
          if dbError.Some? && !Contains(dbError.value, DummyTableMissing) {
            database := database.(status := Error, error := dbError);
          } else {
            database := database.(status := Ok);
          }
          match auth {
            case Threw(t) =>
              database := database.(status := Error, error := Some(MessageOr(t, UnknownDatabaseError)));
              authCheck := authCheck.(status := Error, error := Some(MessageOr(t, UnknownAuthError)));
            case Returned(authError) =>
              if authError.Some? {
                authCheck := authCheck.(status := Error, error := authError);
              } else {
                authCheck := authCheck.(status := Ok);
              }
          }
      }
    } else {
      database := database.(status := NotConfigured, error := Some(EnvGuidance));
      authCheck := authCheck.(status := NotConfigured, error := Some(EnvGuidance));
    }

    var hasErrors := database.status == Error || authCheck.status == Error;
    var isConfigured :=
      (database.status == Ok || database.status == NotConfigured) &&
      (authCheck.status == Ok || authCheck.status == NotConfigured);

    var overall: Overall;
    if !isConfigured {
      overall := Unhealthy;
    } else if !env.supabaseUrl || !env.anonKey {
      overall := Unconfigured;
    } else if hasErrors {
      overall := Degraded;
    } else {
      overall := Healthy;
    }

    var code := if overall == Unhealthy then 500 else 200;
    resp := Report(overall, StatusMessage(overall.Name()), env, database, authCheck, code);
  }
}
