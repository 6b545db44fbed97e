/**
 The status badge: a colour class looked up by badge type and status in a
 fixed table, with a grey fallback, around the status text.
 */
module StatusBadge {
  import opened Js

  const Fallback := "bg-gray-500 text-white"

  /** The configuration table, by badge type then status. There is no `visa` type. */
  const Configs: map<string, map<string, string>> := map[
    "offer" := map[
      "Issued" := "bg-status-issued text-white",
      "Pending" := "bg-status-pending text-white",
      "Declined" := "bg-status-declined text-white"],
    "gs" := map[
      "Approved" := "bg-status-approved text-white",
      "Pending" := "bg-status-pending text-white",
      "Declined" := "bg-status-declined text-white"],
    "coe" := map[
      "Issued" := "bg-status-issued text-white",
      "Pending" := "bg-status-pending text-white",
      "Release Required" := "bg-status-required text-white"],
    "default" := map[
      "Active" := "bg-status-approved text-white",
      "Inactive" := "bg-gray-500 text-white"]
  ]

  /** The type a badge is looked up under: an omitted `type` means `default`. */
  function TypeKey(badgeType: Option<string>): string {
    if badgeType.None? then "default" else badgeType.value
  }

  /** Every configured class is a non-empty string, so `||` never skips a found class. */
  lemma ConfiguredClassesTruthy()
    ensures forall t, s :: t in Configs && s in Configs[t] ==> Configs[t][s] != ""
  {
  }

  /**
   `getStatusConfig(status, type)`: `configs[type]?.[status] || fallback`,
   the status used as a property key, that is as `String(status)`.
   */
  function ClassFor(badgeType: Option<string>, status: Value): (cls: string)
    ensures cls != ""
    ensures var t := TypeKey(badgeType); var s := ToStr(status);
            t in Configs && s in Configs[t] ==> cls == Configs[t][s]
    ensures var t := TypeKey(badgeType); var s := ToStr(status);
            !(t in Configs && s in Configs[t]) ==> cls == Fallback
  {
    ConfiguredClassesTruthy();
    var t := TypeKey(badgeType);
    var s := ToStr(status);
    var found := if t in Configs && s in Configs[t] then Configs[t][s] else "";
    if found != "" then found else Fallback
  }

  /** The table has no `visa` entries: every visa badge is grey. */
  lemma VisaAlwaysFallsBack(status: Value)
    ensures ClassFor(Some("visa"), status) == Fallback
  {
    assert "visa" !in Configs;
  }

  /** Omitting the type is the same as asking for `default`, which only colours `Active`. */
  lemma OmittedTypeIsDefault(status: Value)
    ensures ClassFor(None, status) == ClassFor(Some("default"), status)
    ensures ClassFor(None, status) != Fallback <==> ToStr(status) == "Active"
  {
  }

  /** A grey badge does not mean an unknown status: `Inactive` is configured grey. */
  lemma GreyIsNotOnlyFallback()
    ensures "Inactive" in Configs["default"]
    ensures ClassFor(None, Str("Inactive")) == Fallback
  {
  }

  /** The rendered badge: the status as given, and its class. */
  datatype Badge = Badge(text: Value, cls: string)

  function Render(status: Value, badgeType: Option<string>): (b: Badge)
    ensures b.text == status
    ensures b.cls == ClassFor(badgeType, status)
  {
    Badge(status, ClassFor(badgeType, status))
  }
}
