/** The status badge: a fixed table from status to background, text colour
    and label, with the offline entry for any status the table does not
    know, and a coloured dot next to the label. */
module StatusBadge {
  import opened Wrappers
  import opened Text
  import opened JsObject

  datatype BadgeConfig = BadgeConfig(bg: string, text: string, labelText: string)

  const StatusConfig: map<string, BadgeConfig> := map[
    "online" := BadgeConfig("bg-green-100", "text-green-800", "Online"),
    "warning" := BadgeConfig("bg-yellow-100", "text-yellow-800", "Warning"),
    "error" := BadgeConfig("bg-red-100", "text-red-800", "Error"),
    "offline" := BadgeConfig("bg-gray-100", "text-gray-800", "Offline"),
    "maintenance" := BadgeConfig("bg-blue-100", "text-blue-800", "Maintenance")
  ]

  /** `statusConfig[status] || statusConfig.offline`, with the lookup
      restricted to the table's own keys. */
  function ConfigFor(status: string): (c: BadgeConfig)
    ensures status in StatusConfig ==> c == StatusConfig[status]
    ensures status !in StatusConfig ==> c == StatusConfig["offline"]
  {
    if status in StatusConfig then StatusConfig[status] else StatusConfig["offline"]
  }

  /** The badge always has a label: the status capitalised when the table
      knows it, `Offline` otherwise. */
  function Label(status: string): (caption: string)
    ensures caption != []
    ensures status in StatusConfig ==> caption == [UpperChar(status[0])] + status[1..]
    ensures status !in StatusConfig ==> caption == "Offline"
  {
    ConfigFor(status).labelText
  }

  /** The dot's colour class. */
  function DotColour(status: string): (colour: string)
    ensures colour == "bg-green-600" <==> status == "online"
    ensures colour == "bg-yellow-600" <==> status == "warning"
    ensures colour == "bg-red-600" <==> status == "error"
    ensures colour == "bg-gray-600" <==> status != "online" && status != "warning" && status != "error"
  {
    if status == "online" then "bg-green-600"
    else if status == "warning" then "bg-yellow-600"
    else if status == "error" then "bg-red-600"
    else "bg-gray-600"
  }

  /** A background class in the 600 shade instead of the 100 shade. */
  function Shade600(bg: string): string
    requires |bg| >= 3
  {
    bg[..|bg| - 3] + "600"
  }

  /** The dot is the badge's own colour in a darker shade, except for
      maintenance, whose blue badge carries a gray dot. */
  lemma DotMatchesBadge(status: string)
    ensures |ConfigFor(status).bg| >= 3
    ensures DotColour(status) == Shade600(ConfigFor(status).bg) <==> status != "maintenance"
  {
    var bg := ConfigFor(status).bg;
    if status == "maintenance" {
      assert bg == "bg-blue-100";
      assert Shade600(bg) == "bg-blue-600";
    } else if status == "online" {
      assert Shade600(bg) == "bg-green-600";
    } else if status == "warning" {
      assert Shade600(bg) == "bg-yellow-600";
    } else if status == "error" {
      assert Shade600(bg) == "bg-red-600";
    } else {
      assert bg == "bg-gray-100";
      assert Shade600(bg) == "bg-gray-600";
    }
  }

  /** What the JavaScript lookup yields: a table entry, or an inherited
      member of `Object.prototype`, which is truthy and so never replaced by
      the offline entry. */
  datatype Lookup = Config(config: BadgeConfig) | NotAConfig(member: string)

  /** `statusConfig[status] || statusConfig.offline` as written. */
  function ConfigAsWritten(status: string): (r: Lookup)
    ensures status !in ObjectPrototypeMembers ==> r == Config(ConfigFor(status))
    ensures status in ObjectPrototypeMembers ==> r == NotAConfig(status)
  {
    match Get(StatusConfig, status)
    case Own(c) => Config(c)
    case Inherited(name) => NotAConfig(name)
    case Undefined => Config(StatusConfig["offline"])
  }

  /** `{config.label}` as written: a prototype member has no `label`, so
      nothing is shown. */
  function LabelAsWritten(status: string): (caption: Option<string>)
    ensures status !in ObjectPrototypeMembers ==> caption == Some(Label(status))
    ensures status in ObjectPrototypeMembers ==> caption == None
  {
    match ConfigAsWritten(status)
    case Config(c) => Some(c.labelText)
    case NotAConfig(_) => None
  }

  /** The status `constructor` gets an empty badge instead of the offline
      one. */
  lemma BadgeAsWrittenLosesFallback()
    ensures LabelAsWritten("constructor") == None
    ensures Label("constructor") == "Offline"
  {
    assert "constructor" in ObjectPrototypeMembers;
  }
}
