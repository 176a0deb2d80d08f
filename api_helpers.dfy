/**
 * The response helpers of src/lib/api-helpers.ts: builders for the uniform
 * `{ success, data, message, error }` body with its HTTP status, and the
 * classification of a caught error into one of those responses.
 *
 * An omitted optional argument is `None`; the default the source declares is
 * applied by the builder.
 */
module ApiHelpers {
  import opened Wrappers
  import opened Text
  import opened JsErrors

  /** The body `NextResponse.json` is given, with the HTTP status it is sent with. */
  datatype ApiResponse<T> = ApiResponse(
    success: bool,
    data: Option<T>,
    message: Option<string>,
    error: Option<string>,
    status: int)

  const AuthRequiredText := "認証が必要です"
  const AccessDeniedText := "アクセス権限がありません"
  const NotFoundText := "データが見つかりません"
  const UnexpectedText := "予期しないエラーが発生しました"

  /** `createApiResponse(data, message?, status = 200)`. */
  function CreateApiResponse<T>(data: T, message: Option<string>, status: Option<int>): (r: ApiResponse<T>)
    ensures r.success && r.data == Some(data) && r.message == message && r.error.None?
    ensures status.None? ==> r.status == 200
    ensures status.Some? ==> r.status == status.value
  {
    ApiResponse(true, Some(data), message, None, status.GetOr(200))
  }

  /** `createApiError(error, status = 500, data?)`. */
  function CreateApiError<T>(error: string, status: Option<int>, data: Option<T>): (r: ApiResponse<T>)
    ensures !r.success && r.error == Some(error) && r.data == data && r.message.None?
    ensures status.None? ==> r.status == 500
    ensures status.Some? ==> r.status == status.value
  {
    ApiResponse(false, data, None, Some(error), status.GetOr(500))
  }

  /** `createValidationError(message)`. */
  function CreateValidationError<T>(message: string): (r: ApiResponse<T>)
    ensures !r.success && r.status == 400 && r.error == Some(message)
  {
    CreateApiError(message, Some(400), None)
  }

  /** `createUnauthorizedError(message = '認証が必要です')`. */
  function CreateUnauthorizedError<T>(message: Option<string>): (r: ApiResponse<T>)
    ensures !r.success && r.status == 401 && r.error == Some(message.GetOr(AuthRequiredText))
  {
    CreateApiError(message.GetOr(AuthRequiredText), Some(401), None)
  }

  /** `createForbiddenError(message = 'アクセス権限がありません')`. */
  function CreateForbiddenError<T>(message: Option<string>): (r: ApiResponse<T>)
    ensures !r.success && r.status == 403 && r.error == Some(message.GetOr(AccessDeniedText))
  {
    CreateApiError(message.GetOr(AccessDeniedText), Some(403), None)
  }

  /** `createNotFoundError(message = 'データが見つかりません')`. */
  function CreateNotFoundError<T>(message: Option<string>): (r: ApiResponse<T>)
    ensures !r.success && r.status == 404 && r.error == Some(message.GetOr(NotFoundText))
  {
    CreateApiError(message.GetOr(NotFoundText), Some(404), None)
  }

  /** The error carries a `code` property (with whatever value), so the database-error rules apply. */
  predicate IsCoded(e: Thrown) {
    e.ErrorObject? && e.codeProperty.HasCode?
  }

  /** `code === 'PGRST301' || message?.includes('JWT')`. */
  predicate AuthFailure(code: Option<string>, message: string) {
    code == Some("PGRST301") || Contains(message, "JWT")
  }

  /** `code?.startsWith('42501') || message?.includes('permission')`. */
  predicate PermissionFailure(code: Option<string>, message: string) {
    (code.Some? && StartsWith(code.value, "42501")) || Contains(message, "permission")
  }

  /**
   * `handleApiError`: the rules are tried in order (authentication, permission,
   * not found); a coded error matching none of them is a 400 carrying its own
   * message; an uncoded `Error` is a 500 with its message; anything else thrown
   * is a 500 with a fixed text.
   */
  function HandleApiError<T>(e: Thrown): (r: ApiResponse<T>)
    ensures !r.success && r.data.None? && r.message.None? && r.error.Some?
    ensures r.status in {400, 401, 403, 404, 500}
    ensures r.status == 500 <==> !IsCoded(e)
    ensures r.status == 401 <==> IsCoded(e) && AuthFailure(e.codeProperty.code, e.message)
    ensures r.status == 403 <==>
      IsCoded(e) && !AuthFailure(e.codeProperty.code, e.message)
      && PermissionFailure(e.codeProperty.code, e.message)
    ensures r.status == 404 <==>
      IsCoded(e) && !AuthFailure(e.codeProperty.code, e.message)
      && !PermissionFailure(e.codeProperty.code, e.message)
      && e.codeProperty.code == Some("PGRST116")
    ensures r.status == 400 || (r.status == 500 && e.ErrorObject?) ==> r.error == Some(e.message)
    ensures e.NonError? ==> r.error == Some(UnexpectedText)
  {
    match e
    case NonError => CreateApiError(UnexpectedText, Some(500), None)
    case ErrorObject(message, NoCode) => CreateApiError(message, Some(500), None)
    case ErrorObject(message, HasCode(code)) =>
      if code == Some("PGRST301") || Contains(message, "JWT") then
        CreateApiError(AuthRequiredText, Some(401), None)
      else if (code.Some? && StartsWith(code.value, "42501")) || Contains(message, "permission") then
        CreateApiError(AccessDeniedText, Some(403), None)
      else if code == Some("PGRST116") then
        CreateApiError(NotFoundText, Some(404), None)
      else
        CreateApiError(message, Some(400), None)
  }

  /**
   * The three classified outcomes are exactly the responses of the fixed builders
   * called with their default texts.
   */
  lemma ClassifiedErrorsMatchBuilders<T>(e: Thrown)
    ensures HandleApiError<T>(e).status == 401 ==> HandleApiError<T>(e) == CreateUnauthorizedError(None)
    ensures HandleApiError<T>(e).status == 403 ==> HandleApiError<T>(e) == CreateForbiddenError(None)
    ensures HandleApiError<T>(e).status == 404 ==> HandleApiError<T>(e) == CreateNotFoundError(None)
    ensures HandleApiError<T>(e).status == 400 ==> HandleApiError<T>(e) == CreateValidationError(e.message)
  {
  }

  /**
   * The authentication rule takes precedence: a coded error whose message holds
   * "JWT" anywhere is a 401, even when its code or message also matches the
   * permission or not-found rule.
   */
  lemma JwtAnywhereIsUnauthorized<T>(message: string, code: Option<string>, i: int)
    requires OccursAt(message, "JWT", i)
    ensures HandleApiError<T>(ErrorObject(message, HasCode(code))).status == 401
  {
    ContainsIffOccurs(message, "JWT");
  }

  /**
   * Without an authentication match, "permission" anywhere in the message makes a
   * coded error a 403, whatever its code (`PGRST116` included).
   */
  lemma PermissionAnywhereIsForbidden<T>(message: string, code: Option<string>, i: int)
    requires OccursAt(message, "permission", i)
    requires !AuthFailure(code, message)
    ensures HandleApiError<T>(ErrorObject(message, HasCode(code))).status == 403
  {
    ContainsIffOccurs(message, "permission");
  }
}
