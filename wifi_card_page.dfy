/** The WiFi card generator page (app/page.tsx): the form state, the two effects that
    keep derived state in step with it, the download guard, the button rules and the
    template and print-layout choices.

    Each `useState` field is a field of `WifiCardForm`. React runs an effect after the
    render in which one of its dependencies changed; here each setter runs the effects
    that depend on the field it sets before returning, so the derived state is never
    observed stale. */
module WifiCardPage {
  import opened Wrappers
  import opened QrPayload
  import opened CardTemplates

  /** How the asynchronous capture inside `handleDownload` ends: the first capture saves
      the file, the first fails and the fallback capture saves it, both fail, or the
      set-up before the first capture throws. */
  datatype CaptureOutcome = Captured | FallbackCaptured | FallbackFailed | SetupFailed

  /** The print stylesheet's box for `#wifi-card`. */
  datatype PrintBox = PrintBox(width: string, height: string, rotated: bool)

  /** The name under which a captured card is saved. */
  function DownloadFileName(ssid: string): (name: string)
    ensures |name| == |ssid| + 9
    ensures name[..5] == "wifi-" && name[|name| - 4..] == ".png"
    ensures name[5..|name| - 4] == ssid
  {
    "wifi-" + ssid + ".png"
  }

  /** The file a download saves, if any: the same name on the primary and the fallback
      path, nothing when both captures fail or the set-up throws. */
  function SavedFile(ssid: string, outcome: CaptureOutcome): (saved: Option<string>)
    ensures saved.Some? <==> outcome == Captured || outcome == FallbackCaptured
    ensures saved.Some? ==> saved.value == DownloadFileName(ssid)
  {
    match outcome
    case Captured => Some(DownloadFileName(ssid))
    case FallbackCaptured => Some(DownloadFileName(ssid))
    case FallbackFailed => None
    case SetupFailed => None
  }

  /** `renderCardTemplate`: "modern" selects the Modern card, every other value Business. */
  function SelectTemplate(template: string): (t: Template)
    ensures t == Modern <==> template == "modern"
  {
    match template
    case "business" => Business
    case "modern" => Modern
    case _ => Business
  }

  /** The print size and rotation for an orientation; anything but "portrait" prints as
      landscape. */
  function PrintLayout(orientation: string): PrintBox {
    if orientation == "portrait" then PrintBox("2.5in", "4.5in", true)
    else PrintBox("4.5in", "2.5in", false)
  }

  /** Portrait prints the landscape box with width and height swapped, rotated a quarter
      turn; the landscape box is 4.5in wide and 2.5in high. */
  lemma PortraitSwapsLandscape(orientation: string)
    ensures var landscape, portrait := PrintLayout("landscape"), PrintLayout("portrait");
            landscape == PrintBox("4.5in", "2.5in", false) &&
            portrait.width == landscape.height && portrait.height == landscape.width &&
            portrait.rotated && !landscape.rotated &&
            (orientation != "portrait" ==> PrintLayout(orientation) == landscape)
  {
  }

  class WifiCardForm {
    var ssid: string
    var password: string
    var encryption: string
    var showPassword: bool
    var showSSID: bool
    var qrValue: string
    var template: string
    var isHiddenNetwork: bool
    var additionalInfo: string
    var orientation: string
    var primaryColor: string
    var secondaryColor: string
    var expirationDate: Option<Date>
    var isDownloading: bool
    /** The SSID of the render whose click started the download in progress: the async
        handler's closure keeps it while the fields stay editable. */
    var downloadSsid: string

    function CurrentNetwork(): Network
      reads this
    {
      Network(ssid, password, encryption, isHiddenNetwork)
    }

    /** The QR value always matches the fields, and the name is never concealed on a
        network that is not hidden. */
    ghost predicate Valid()
      reads this
    {
      && qrValue == Payload(CurrentNetwork())
      && (!isHiddenNetwork ==> showSSID)
    }

    /** The initial state, after the first run of both effects. */
    constructor ()
      ensures Valid()
      ensures ssid == [] && password == [] && encryption == "WPA"
      ensures !showPassword && showSSID && qrValue == [] && template == "business"
      ensures !isHiddenNetwork && additionalInfo == [] && orientation == "landscape"
      ensures primaryColor == "#3b82f6" && secondaryColor == "#dbeafe"
      ensures expirationDate == None && !isDownloading
    {
      ssid, password, encryption := [], [], "WPA";
      showPassword, showSSID, qrValue := false, true, [];
      template, isHiddenNetwork, additionalInfo := "business", false, [];
      orientation, primaryColor, secondaryColor := "landscape", "#3b82f6", "#dbeafe";
      expirationDate, isDownloading, downloadSsid := None, false, [];
    }

    /** Recomputes the QR value from the fields, as the qrValue effect does. */
    /** The effect's own statements; `Payload` is the function they are proved to compute. */
    method UpdateQrValue()
      modifies this`qrValue
      ensures qrValue == Payload(CurrentNetwork())
    {
      if ssid != [] {
        var hiddenParam: string := if isHiddenNetwork then "H:true;" else [];
        qrValue := "WIFI:S:" + ssid + ";T:" + encryption + ";P:" + password + ";" + hiddenParam + ";";
      } else {
        qrValue := [];
      }
    }

    method SetSsid(value: string)
      requires Valid()
      modifies this`ssid, this`qrValue
      ensures Valid() && ssid == value
    {
      ssid := value;
      UpdateQrValue();
    }

    method SetPassword(value: string)
      requires Valid()
      modifies this`password, this`qrValue
      ensures Valid() && password == value
    {
      password := value;
      UpdateQrValue();
    }

    method SetEncryption(value: string)
      requires Valid()
      modifies this`encryption, this`qrValue
      ensures Valid() && encryption == value
    {
      encryption := value;
      UpdateQrValue();
    }

    /** The hidden-network checkbox. When the value changes, the showSSID effect sets
        `showSSID` to its negation; setting the same value runs no effect. */
    method SetHiddenNetwork(checked: bool)
      requires Valid()
      modifies this`isHiddenNetwork, this`showSSID, this`qrValue
      ensures Valid() && isHiddenNetwork == checked
      ensures checked != old(isHiddenNetwork) ==> showSSID == !checked
      ensures checked == old(isHiddenNetwork) ==> showSSID == old(showSSID)
    {
      var changed := checked != isHiddenNetwork;
      isHiddenNetwork := checked;
      if changed {
        if isHiddenNetwork {
          showSSID := false;
        } else {
          showSSID := true;
        }
      }
      UpdateQrValue();
    }

    method ToggleShowPassword()
      modifies this`showPassword
      ensures showPassword == !old(showPassword)
    {
      showPassword := !showPassword;
    }

    /** The show/hide-name button, which the page renders only for a hidden network. */
    method ToggleShowSSID()
      requires Valid() && isHiddenNetwork
      modifies this`showSSID
      ensures Valid() && showSSID == !old(showSSID)
    {
      showSSID := !showSSID;
    }

    method SetTemplate(value: string)
      modifies this`template
      ensures template == value
    {
      template := value;
    }

    method SetOrientation(value: string)
      modifies this`orientation
      ensures orientation == value
    {
      orientation := value;
    }

    method SetAdditionalInfo(value: string)
      modifies this`additionalInfo
      ensures additionalInfo == value
    {
      additionalInfo := value;
    }

    method SetPrimaryColor(value: string)
      modifies this`primaryColor
      ensures primaryColor == value
    {
      primaryColor := value;
    }

    method SetSecondaryColor(value: string)
      modifies this`secondaryColor
      ensures secondaryColor == value
    {
      secondaryColor := value;
    }

    method SetExpirationDate(value: Option<Date>)
      modifies this`expirationDate
      ensures expirationDate == value
    {
      expirationDate := value;
    }

    /** The Download button is disabled while there is no QR value (no SSID) or a
        download is in progress. */
    function DownloadDisabled(): (disabled: bool)
      reads this
      requires Valid()
      ensures disabled <==> ssid == [] || isDownloading
    {
      qrValue == [] || isDownloading
    }

    /** The Print button is disabled exactly while the SSID is empty. */
    function PrintDisabled(): (disabled: bool)
      reads this
      requires Valid()
      ensures disabled <==> ssid == []
    {
      qrValue == []
    }

    /** The guard and flag at the start of `handleDownload`: it proceeds only when the
        Download button would be enabled, and then marks a download in progress and
        keeps the SSID of the click. */
    method StartDownload() returns (started: bool)
      requires Valid()
      modifies this`isDownloading, this`downloadSsid
      ensures Valid()
      ensures started <==> !old(DownloadDisabled())
      ensures isDownloading == (old(isDownloading) || started)
      ensures downloadSsid == if started then old(ssid) else old(downloadSsid)
    {
      if qrValue == [] || isDownloading {
        return false;
      }
      isDownloading := true;
      downloadSsid := ssid;
      started := true;
    }

    /** The rest of `handleDownload` after the guard: the file is named after the SSID
        of the click, even if the field was edited meanwhile, and whatever the capture
        does, the `finally` clears the flag. */
    method FinishDownload(outcome: CaptureOutcome) returns (saved: Option<string>)
      requires Valid() && isDownloading
      modifies this`isDownloading
      ensures Valid() && !isDownloading
      ensures saved == SavedFile(downloadSsid, outcome)
    {
      match outcome {
        case Captured =>
          saved := Some(DownloadFileName(downloadSsid));
        case FallbackCaptured =>
          saved := Some(DownloadFileName(downloadSsid));
        case FallbackFailed =>
          saved := None;
        case SetupFailed =>
          saved := None;
      }
      isDownloading := false;
    }

    /** One whole `handleDownload` run: a no-op while the button is disabled; otherwise
        the flag is set for the duration and cleared on every exit path, so it ends as it
        began. */
    method HandleDownload(outcome: CaptureOutcome) returns (saved: Option<string>)
      requires Valid()
      modifies this`isDownloading, this`downloadSsid
      ensures Valid() && isDownloading == old(isDownloading)
      ensures downloadSsid == if old(DownloadDisabled()) then old(downloadSsid) else old(ssid)
      ensures old(DownloadDisabled()) ==> saved.None?
      ensures !old(DownloadDisabled()) ==> saved == SavedFile(ssid, outcome)
    {
      var started := StartDownload();
      if !started {
        return None;
      }
      saved := FinishDownload(outcome);
    }

    /** The props `renderCardTemplate` passes to either template. */
    function Props(): CardProps
      reads this
    {
      CardProps(ssid, password, encryption, qrValue, showPassword, showSSID,
                Some(additionalInfo), Some(primaryColor), Some(secondaryColor),
                expirationDate, Some(isHiddenNetwork))
    }

    /** `renderCard`: no card while the QR value is empty, otherwise the selected
        template over the current props. */
    function Preview(): (card: Option<CardView>)
      reads this
      requires Valid()
      ensures card.Some? <==> ssid != []
      ensures card.Some? ==> card.value.template == SelectTemplate(template)
    {
      if qrValue == [] then None else Some(Card(SelectTemplate(template), Props()))
    }
  }

  /** The card shown for a hidden network may conceal its name, but the QR code it
      carries is the payload of the real network, SSID included; for fields without a
      semicolon that payload reads back as the network itself. */
  lemma PreviewEncodesRealNetwork(form: WifiCardForm)
    requires form.Valid() && form.ssid != []
    ensures form.Preview().Some?
    ensures form.Preview().value.qrPayload == Payload(form.CurrentNetwork())
    ensures Unambiguous(form.CurrentNetwork()) ==>
              Parse(form.Preview().value.qrPayload) == Some(form.CurrentNetwork())
    ensures form.isHiddenNetwork && !form.showSSID ==> form.Preview().value.networkName == Mask
  {
    var t := SelectTemplate(form.template);
    QrValuePassedThrough(t, form.Props());
    NameMaskedWhenConcealed(t, form.Props());
    if Unambiguous(form.CurrentNetwork()) {
      ParsePayload(form.CurrentNetwork());
    }
  }

  /** Editing the SSID while a download is in progress does not rename the file: it is
      saved under the SSID of the click. */
  method EditDuringDownload()
  {
    var form := new WifiCardForm();
    form.SetSsid("a");
    var started := form.StartDownload();
    assert started;
    form.SetSsid("b");
    var again := form.StartDownload();
    assert !again;
    var refused := form.HandleDownload(Captured);
    assert refused == None;
    var saved := form.FinishDownload(Captured);
    assert form.downloadSsid == "a";
    assert DownloadFileName("a") == "wifi-a.png";
    assert saved == Some("wifi-a.png");
    assert !form.isDownloading && form.ssid == "b";
  }
}
