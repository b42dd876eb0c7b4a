/**
 * The two display mappings of the profile header: the text label and the
 * colour class of the presence badge. Both are total over every string and
 * match exactly three literal keys; everything else falls to the default.
 */
module StatusDisplay {

  // The three status strings the page recognises.
  const Online := "online"
  const Idle := "idle"
  const DoNotDisturb := "dnd"

  const OfflineLabel := "Оффлайн"
  const OfflineColor := "bg-gray-500"

  /** A status string that one of the switch cases matches. */
  predicate IsKnownStatus(status: string) {
    status == Online || status == Idle || status == DoNotDisturb
  }

  /** The badge label shown next to the status dot. */
  function StatusText(status: string): (text: string)
    ensures text == "Онлайн" <==> status == Online
    ensures text == "Неактивен" <==> status == Idle
    ensures text == "Не беспокоить" <==> status == DoNotDisturb
    ensures text == OfflineLabel <==> !IsKnownStatus(status)
  {
    match status
    case "online" => "Онлайн"
    case "idle" => "Неактивен"
    case "dnd" => "Не беспокоить"
    case _ => OfflineLabel
  }

  /** The Tailwind class of the status dot. */
  function StatusColor(status: string): (color: string)
    ensures color == "bg-green-500" <==> status == Online
    ensures color == "bg-amber-500" <==> status == Idle
    ensures color == "bg-red-500" <==> status == DoNotDisturb
    ensures color == OfflineColor <==> !IsKnownStatus(status)
  {
    match status
    case "online" => "bg-green-500"
    case "idle" => "bg-amber-500"
    case "dnd" => "bg-red-500"
    case _ => OfflineColor
  }

  /** The label and the colour never disagree: grey exactly when "offline". */
  lemma MappingsAgree(status: string)
    ensures StatusColor(status) == OfflineColor <==> StatusText(status) == OfflineLabel
  {
  }

  /** Each colour determines its label, so the dot and the text always match. */
  lemma ColorDeterminesText(s1: string, s2: string)
    ensures StatusColor(s1) == StatusColor(s2) <==> StatusText(s1) == StatusText(s2)
  {
  }

  /** The long form "doNotDisturb" and the initial "offline" are not matched. */
  lemma UnmatchedSpellings()
    ensures StatusText("doNotDisturb") == OfflineLabel && StatusColor("doNotDisturb") == OfflineColor
    ensures StatusText("offline") == OfflineLabel && StatusColor("offline") == OfflineColor
  {
  }
}
