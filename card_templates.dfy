/** What the two card templates of app/card-templates.tsx display, derived from their
    props. Both templates are pure: the model computes, for each, the texts and rows the
    card shows, the value handed to the QR renderer and the colours of its gradient. */
module CardTemplates {
  import opened Wrappers
  import opened ColorAlpha

  /** An expiration date; it is only displayed (through a date formatter). */
  datatype Date = Date(year: int, month: int, day: int)

  /** The props of both templates. Optional props are `Option`s; `None` stands for
      `undefined`. */
  datatype CardProps = CardProps(
    ssid: string,
    password: string,
    encryption: string,
    qrValue: string,
    showPassword: bool,
    showSSID: bool,
    additionalInfo: Option<string>,
    primaryColor: Option<string>,
    secondaryColor: Option<string>,
    expirationDate: Option<Date>,
    isHiddenNetwork: Option<bool>)

  datatype Template = Business | Modern

  /** The derived content of a rendered card. A row that is not rendered is `None`. */
  datatype CardView = CardView(
    template: Template,
    heading: string,
    hiddenTag: bool,
    networkName: string,
    passwordRow: Option<string>,
    securityLabel: string,
    expiryRow: Option<Date>,
    infoRow: Option<string>,
    qrPayload: string,
    gradientFrom: string,
    gradientTo: string,
    borderColor: string)

  /** The eight bullets shown in place of a concealed name or password. */
  const Mask: string := "••••••••"
  const OpenNetworkLabel: string := "Open Network"

  const BusinessPrimary: string := "#3b82f6"
  const BusinessSecondary: string := "#dbeafe"
  const ModernPrimary: string := "#6366f1"
  const ModernSecondary: string := "#eef2ff"

  /** JavaScript truthiness of the optional flag `isHiddenNetwork`. */
  predicate Hidden(p: CardProps) {
    p.isHiddenNetwork == Some(true)
  }

  /** The network name line: the mask while a hidden network's name is concealed. */
  function NetworkName(p: CardProps): string {
    if Hidden(p) && !p.showSSID then Mask else p.ssid
  }

  /** The password row, rendered only for a non-empty password; masked unless shown. */
  function PasswordRow(p: CardProps): Option<string> {
    if p.password == [] then None
    else Some(if p.showPassword then p.password else Mask)
  }

  /** The security line: the encryption value, except that `NONE` reads "Open Network". */
  function SecurityLabel(encryption: string): string {
    if encryption == "NONE" then OpenNetworkLabel else encryption
  }

  /** The additional-information row, rendered only for a non-empty string. */
  function InfoRow(info: Option<string>): Option<string> {
    match info
    case Some(text) => if text == [] then None else Some(text)
    case None => None
  }

  /** The content both templates share; they differ only in heading and default colours. */
  function Render(template: Template, heading: string, primary: string, secondary: string,
                  p: CardProps): CardView
  {
    CardView(
      template := template,
      heading := heading,
      hiddenTag := Hidden(p),
      networkName := NetworkName(p),
      passwordRow := PasswordRow(p),
      securityLabel := SecurityLabel(p.encryption),
      expiryRow := p.expirationDate,
      infoRow := InfoRow(p.additionalInfo),
      qrPayload := p.qrValue,
      gradientFrom := secondary,
      gradientTo := ReplaceAlpha(secondary, "0.3"),
      borderColor := ReplaceAlpha(primary, "0.2"))
  }

  /** `BusinessCardTemplate`. */
  function BusinessCard(p: CardProps): (v: CardView)
    ensures v.template == Business && v.heading == "WiFi Access"
    ensures v.gradientFrom == p.secondaryColor.GetOr(BusinessSecondary)
  {
    Render(Business, "WiFi Access", p.primaryColor.GetOr(BusinessPrimary),
           p.secondaryColor.GetOr(BusinessSecondary), p)
  }

  /** `ModernCardTemplate`. */
  function ModernCard(p: CardProps): (v: CardView)
    ensures v.template == Modern && v.heading == "Connect"
    ensures v.gradientFrom == p.secondaryColor.GetOr(ModernSecondary)
  {
    Render(Modern, "Connect", p.primaryColor.GetOr(ModernPrimary),
           p.secondaryColor.GetOr(ModernSecondary), p)
  }

  function Card(t: Template, p: CardProps): CardView {
    match t
    case Business => BusinessCard(p)
    case Modern => ModernCard(p)
  }

  /** The name line shows the mask exactly when a hidden network's name is concealed,
      and otherwise the SSID unchanged (an SSID that is itself eight bullets aside). */
  lemma NameMaskedWhenConcealed(t: Template, p: CardProps)
    ensures var name := Card(t, p).networkName;
            (Hidden(p) && !p.showSSID ==> name == Mask) &&
            (!(Hidden(p) && !p.showSSID) ==> name == p.ssid) &&
            (p.ssid != Mask ==> (name == Mask <==> Hidden(p) && !p.showSSID))
  {
  }

  /** The password row appears exactly for a non-empty password, showing it exactly when
      `showPassword` is set (a password that is itself the mask aside). */
  lemma PasswordRowRule(t: Template, p: CardProps)
    ensures var row := Card(t, p).passwordRow;
            (row.Some? <==> p.password != []) &&
            (row.Some? && p.showPassword ==> row.value == p.password) &&
            (row.Some? && !p.showPassword ==> row.value == Mask) &&
            (row.Some? && p.password != Mask ==> (row.value == p.password <==> p.showPassword))
  {
  }

  /** The security line reads "Open Network" for `NONE` and the encryption verbatim
      otherwise. */
  lemma SecurityLabelRule(t: Template, p: CardProps)
    ensures var shown := Card(t, p).securityLabel;
            (p.encryption == "NONE" ==> shown == OpenNetworkLabel) &&
            (p.encryption != "NONE" ==> shown == p.encryption)
  {
  }

  /** The "(hidden)" tag appears iff the network is hidden; the expiry and information
      rows appear only when those props are present (and, for the text, non-empty). */
  lemma OptionalRowsRule(t: Template, p: CardProps)
    ensures Card(t, p).hiddenTag <==> p.isHiddenNetwork == Some(true)
    ensures Card(t, p).expiryRow == p.expirationDate
    ensures Card(t, p).infoRow.Some? <==> p.additionalInfo.Some? && p.additionalInfo.value != []
    ensures Card(t, p).infoRow.Some? ==> Card(t, p).infoRow == p.additionalInfo
  {
  }

  /** Both templates hand `qrValue` to the QR renderer untouched, whatever they display. */
  lemma QrValuePassedThrough(t: Template, p: CardProps)
    ensures Card(t, p).qrPayload == p.qrValue
  {
  }

  /** The two templates show the same content; only heading and colours differ. */
  lemma TemplatesShowSameContent(p: CardProps)
    ensures var b, m := BusinessCard(p), ModernCard(p);
            b.networkName == m.networkName && b.hiddenTag == m.hiddenTag &&
            b.passwordRow == m.passwordRow && b.securityLabel == m.securityLabel &&
            b.expiryRow == m.expiryRow && b.infoRow == m.infoRow &&
            b.qrPayload == m.qrPayload
  {
  }

  /** A secondary colour without `)`, such as every hex colour and both defaults, gives
      a gradient whose two ends are the same colour. */
  lemma HexSecondaryGivesFlatGradient(t: Template, p: CardProps)
    requires p.secondaryColor.None? || ')' !in p.secondaryColor.value
    ensures Card(t, p).gradientTo == Card(t, p).gradientFrom
  {
    var secondary := Card(t, p).gradientFrom;
    assert ')' !in BusinessSecondary && ')' !in ModernSecondary;
    NoCloseParenUnchanged(secondary, "0.3");
  }

  /** An `rgba(r, g, b, a)` secondary colour fades to alpha 0.3 at the gradient's end. */
  lemma RgbaSecondaryFades(t: Template, p: CardProps, head: string, alpha: string)
    requires ')' !in head && alpha != [] && ',' !in alpha && ')' !in alpha
    requires p.secondaryColor == Some(head + "," + alpha + ")")
    ensures Card(t, p).gradientTo == head + ",0.3)"
  {
    ReplacesLastComponent(head, alpha, "0.3");
  }
}
