/**
 * The status page (src/app/health/page.tsx): how a status string from the health
 * endpoint is styled (`getStatusColor`), which icon it gets (`getStatusIcon`), and
 * how the values of `checks.environment` are written out.
 */
module HealthPage {
  import opened Wrappers
  import HealthRoute

  /**
   * The classes into which both switch tables sort status strings: the cases
   * that share a branch in either table.
   */
  datatype Tone = Good | Warning | Bad | Pending | Other

  /** The tone of a status string: the reference partition the two tables are checked against. */
  function ToneOf(status: string): Tone {
    if status in {"healthy", "ok"} then Good
    else if status == "degraded" then Warning
    else if status in {"unhealthy", "error"} then Bad
    else if status in {"not_configured", "unknown"} then Pending
    else Other
  }

  const GreenStyle := "text-green-600 bg-green-50 border-green-200"
  const YellowStyle := "text-yellow-600 bg-yellow-50 border-yellow-200"
  const RedStyle := "text-red-600 bg-red-50 border-red-200"
  const BlueStyle := "text-blue-600 bg-blue-50 border-blue-200"
  const GrayStyle := "text-gray-600 bg-gray-50 border-gray-200"

  /** `getStatusColor`: one style per tone, gray for any string outside the listed ones. */
  function StatusColor(status: string): (style: string)
    ensures style == GreenStyle <==> ToneOf(status) == Good
    ensures style == YellowStyle <==> ToneOf(status) == Warning
    ensures style == RedStyle <==> ToneOf(status) == Bad
    ensures style == BlueStyle <==> ToneOf(status) == Pending
    ensures style == GrayStyle <==> ToneOf(status) == Other
  {
    match status
    case "healthy" => GreenStyle
    case "ok" => GreenStyle
    case "degraded" => YellowStyle
    case "unhealthy" => RedStyle
    case "error" => RedStyle
    case "not_configured" => BlueStyle
    case "unknown" => BlueStyle
    case _ => GrayStyle
  }

  /** `getStatusIcon`: one icon per tone, a question mark for any string outside the listed ones. */
  function StatusIcon(status: string): (icon: string)
    ensures icon == "✅" <==> ToneOf(status) == Good
    ensures icon == "⚠️" <==> ToneOf(status) == Warning
    ensures icon == "❌" <==> ToneOf(status) == Bad
    ensures icon == "🔧" <==> ToneOf(status) == Pending
    ensures icon == "❓" <==> ToneOf(status) == Other
  {
    match status
    case "healthy" => "✅"
    case "ok" => "✅"
    case "degraded" => "⚠️"
    case "unhealthy" => "❌"
    case "error" => "❌"
    case "not_configured" => "🔧"
    case "unknown" => "🔧"
    case _ => "❓"
  }

  /** The colour table sorts statuses exactly into the tone classes. */
  lemma ColorClassesAreTones(s: string, t: string)
    ensures StatusColor(s) == StatusColor(t) <==> ToneOf(s) == ToneOf(t)
  {
  }

  /** The icon table sorts statuses exactly into the tone classes. */
  lemma IconClassesAreTones(s: string, t: string)
    ensures StatusIcon(s) == StatusIcon(t) <==> ToneOf(s) == ToneOf(t)
  {
  }

  /** Two statuses get the same colour exactly when they get the same icon. */
  lemma ColorMatchesIcon(s: string, t: string)
    ensures StatusColor(s) == StatusColor(t) <==> StatusIcon(s) == StatusIcon(t)
  {
    ColorClassesAreTones(s, t);
    IconClassesAreTones(s, t);
  }

  /** A string outside the eight listed statuses is drawn gray with a question mark. */
  lemma UnlistedStatusIsGray(s: string)
    requires ToneOf(s) == Other
    ensures StatusColor(s) == GrayStyle && StatusIcon(s) == "❓"
  {
  }

  /** Every status the endpoint can send lands in a listed class, never the fallback. */
  lemma RouteStatusesAreListed(o: HealthRoute.Overall, c: HealthRoute.CheckStatus)
    ensures ToneOf(o.Name()) == match o
      case Healthy => Good
      case Degraded => Warning
      case Unhealthy => Bad
      case Unconfigured => Pending
    ensures ToneOf(c.Name()) == match c
      case Ok => Good
      case Error => Bad
      case NotConfigured => Pending
      case Unknown => Pending
  {
  }

  // ---------------------------------------------------------------------
  // checks.environment
  // ---------------------------------------------------------------------

  /** A value of `checks.environment` after the JSON round trip: a flag or a text. */
  datatype EnvValue = Flag(isSet: bool) | Text(text: string)

  const SetLabel := "✅ 設定済み"
  const UnsetLabel := "❌ 未設定"

  /** The text shown for one environment value: a label for a flag, a text as it is. */
  function EnvValueText(v: EnvValue): (text: string)
    ensures v.Flag? ==> text == if v.isSet then SetLabel else UnsetLabel
    ensures v.Text? ==> text == v.text
  {
    match v
    case Flag(b) => if b then SetLabel else UnsetLabel
    case Text(s) => s
  }

  const SetColor := "text-green-600"
  const UnsetColor := "text-red-600"
  const TextColor := "text-blue-600"

  /** The colour class of one environment value: `true` green, `false` red, otherwise blue. */
  function EnvValueColor(v: EnvValue): (color: string)
    ensures color == SetColor <==> v == Flag(true)
    ensures color == UnsetColor <==> v == Flag(false)
    ensures color == TextColor <==> v.Text?
  {
    if v == Flag(true) then SetColor
    else if v == Flag(false) then UnsetColor
    else TextColor
  }

  /** The keys of `checks.environment`, in the order the endpoint writes them. */
  const UrlKey := "NEXT_PUBLIC_SUPABASE_URL"
  const AnonKeyKey := "NEXT_PUBLIC_SUPABASE_ANON_KEY"
  const ServiceRoleKeyKey := "SUPABASE_SERVICE_ROLE_KEY"
  const NodeEnvKey := "NODE_ENV"

  /**
   * `Object.entries(checks.environment)` for an environment the endpoint reported:
   * the three flags in declaration order, then `NODE_ENV` when it was defined
   * (JSON drops an `undefined` member).
   */
  function EnvironmentEntries(env: HealthRoute.Environment): (entries: seq<(string, EnvValue)>)
    ensures |entries| == if env.nodeEnv.Some? then 4 else 3
    ensures entries[0] == (UrlKey, Flag(env.supabaseUrl))
    ensures entries[1] == (AnonKeyKey, Flag(env.anonKey))
    ensures entries[2] == (ServiceRoleKeyKey, Flag(env.serviceRoleKey))
    ensures env.nodeEnv.Some? ==> entries[3] == (NodeEnvKey, Text(env.nodeEnv.value))
    ensures forall k, l :: 0 <= k < l < |entries| ==> entries[k].0 != entries[l].0
  {
    [ (UrlKey, Flag(env.supabaseUrl)),
      (AnonKeyKey, Flag(env.anonKey)),
      (ServiceRoleKeyKey, Flag(env.serviceRoleKey)) ]
    + (match env.nodeEnv
       case Some(mode) => [(NodeEnvKey, Text(mode))]
       case None => [])
  }

  /** One rendered line: the key, the value's text and the value's colour class. */
  datatype EnvRow = EnvRow(key: string, text: string, color: string)

  /** The rendered rows, one per entry, in order. */
  function EnvironmentRows(env: HealthRoute.Environment): seq<EnvRow> {
    var entries := EnvironmentEntries(env);
    seq(|entries|, i requires 0 <= i < |entries| =>
      EnvRow(entries[i].0, EnvValueText(entries[i].1), EnvValueColor(entries[i].1)))
  }

  /**
   * The three flag rows name their variable and read "✅ 設定済み" in green when
   * the route saw it set, "❌ 未設定" in red otherwise; the mode row, present
   * exactly when the mode is defined, shows it verbatim in blue.
   */
  lemma EnvironmentRowsReflectFlags(env: HealthRoute.Environment)
    ensures var rows := EnvironmentRows(env);
      && |rows| == (if env.nodeEnv.Some? then 4 else 3)
      && rows[0] == FlagRow(UrlKey, env.supabaseUrl)
      && rows[1] == FlagRow(AnonKeyKey, env.anonKey)
      && rows[2] == FlagRow(ServiceRoleKeyKey, env.serviceRoleKey)
      && (env.nodeEnv.Some? ==> rows[3] == EnvRow(NodeEnvKey, env.nodeEnv.value, TextColor))
  {
  }

  /** How a presence flag is drawn. */
  function FlagRow(key: string, isSet: bool): EnvRow {
    if isSet then EnvRow(key, SetLabel, SetColor) else EnvRow(key, UnsetLabel, UnsetColor)
  }
}
