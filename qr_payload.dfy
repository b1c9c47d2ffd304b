/** The text that the WiFi card's QR code encodes (app/page.tsx, the qrValue effect).

    The payload follows the shape of the ZXing "WIFI:" barcode contents, but the app
    interpolates every field raw: nothing is escaped, and an open network is written
    as `T:NONE`. `Parse` is a reader for that exact shape; it is the partner that the
    round-trip lemmas connect `Payload` to. */
module QrPayload {
  import opened Wrappers

  /** The four form fields that feed the payload. `encryption` is the value of the
      security select ("WPA", "WEP" or "NONE"), kept as the string the app stores. */
  datatype Network = Network(ssid: string, password: string, encryption: string, hidden: bool)

  const Prefix: string := "WIFI:S:"
  const HiddenParam: string := "H:true;"

  /** The QR value: the empty string while the SSID is empty (the app then shows no card),
      otherwise every field copied verbatim between the fixed markers. */
  function Payload(n: Network): (r: string)
    ensures r == [] <==> n.ssid == []
  {
    if n.ssid == [] then []
    else Prefix + n.ssid + ";T:" + n.encryption + ";P:" + n.password + ";"
         + (if n.hidden then HiddenParam else []) + ";"
  }

  /** Splits `s` at its first semicolon: the text before it and the text after it. */
  function SplitAtSemicolon(s: string): (r: Option<(string, string)>)
    ensures r.None? <==> ';' !in s
    ensures r.Some? ==> ';' !in r.value.0 && s == r.value.0 + ";" + r.value.1
  {
    if s == [] then None
    else if s[0] == ';' then Some(([], s[1..]))
    else
      match SplitAtSemicolon(s[1..])
      case None => None
      case Some((before, after)) =>
        assert s == [s[0]] + s[1..];
        Some(([s[0]] + before, after))
  }

  /** `s` without its leading `prefix`, if it starts with it. */
  function StripPrefix(prefix: string, s: string): (r: Option<string>)
    ensures r.Some? <==> |prefix| <= |s| && s[..|prefix|] == prefix
    ensures r.Some? ==> s == prefix + r.value
  {
    if |prefix| <= |s| && s[..|prefix|] == prefix then
      assert s == s[..|prefix|] + s[|prefix|..];
      Some(s[|prefix|..])
    else None
  }

  /** Reads a payload of exactly the shape `Payload` writes, with the SSID, encryption
      and password each taken up to the next semicolon. */
  function Parse(r: string): (n: Option<Network>)
  {
    match StripPrefix(Prefix, r)
    case None => None
    case Some(afterPrefix) => ParseSsid(afterPrefix)
  }

  function ParseSsid(s: string): (n: Option<Network>)
  {
    match SplitAtSemicolon(s)
    case None => None
    case Some((ssid, rest)) =>
      if ssid == [] then None
      else
        match StripPrefix("T:", rest)
        case None => None
        case Some(afterT) => ParseEncryption(ssid, afterT)
  }

  function ParseEncryption(ssid: string, s: string): (n: Option<Network>)
  {
    match SplitAtSemicolon(s)
    case None => None
    case Some((encryption, rest)) =>
      match StripPrefix("P:", rest)
      case None => None
      case Some(afterP) => ParsePassword(ssid, encryption, afterP)
  }

  function ParsePassword(ssid: string, encryption: string, s: string): (n: Option<Network>)
  {
    match SplitAtSemicolon(s)
    case None => None
    case Some((password, tail)) =>
      if tail == ";" then Some(Network(ssid, password, encryption, false))
      else if tail == HiddenParam + ";" then Some(Network(ssid, password, encryption, true))
      else None
  }

  /** The fields `Parse` can read back: a non-empty SSID and no semicolon in any field. */
  predicate Unambiguous(n: Network) {
    n.ssid != [] && ';' !in n.ssid && ';' !in n.encryption && ';' !in n.password
  }

  /** A semicolon-free field followed by `;` is split off exactly. */
  lemma {:induction false} SplitAtFieldEnd(field: string, rest: string)
    requires ';' !in field
    ensures SplitAtSemicolon(field + ";" + rest) == Some((field, rest))
  {
    if field == [] {
      assert field + ";" + rest == [';'] + rest;
    } else {
      var s := field + ";" + rest;
      assert s[0] == field[0] && s[0] != ';';
      assert s[1..] == field[1..] + ";" + rest;
      SplitAtFieldEnd(field[1..], rest);
      assert field == [field[0]] + field[1..];
    }
  }

  lemma StripPrefixOf(prefix: string, rest: string)
    ensures StripPrefix(prefix, prefix + rest) == Some(rest)
  {
    assert (prefix + rest)[..|prefix|] == prefix;
    assert (prefix + rest)[|prefix|..] == rest;
  }

  /** What follows the password: the optional hidden flag and the closing `;`. */
  function Trailer(hidden: bool): string {
    (if hidden then HiddenParam else []) + ";"
  }

  /** The payload of a named network, regrouped field by field as `Parse` reads it. */
  lemma PayloadFields(n: Network)
    requires n.ssid != []
    ensures Payload(n) == Prefix + (n.ssid + ";" + ("T:" + (n.encryption + ";" + ("P:" + (n.password + ";" + Trailer(n.hidden))))))
  {
  }

  lemma ParsePasswordField(n: Network)
    requires ';' !in n.password
    ensures ParsePassword(n.ssid, n.encryption, n.password + ";" + Trailer(n.hidden)) == Some(n)
  {
    SplitAtFieldEnd(n.password, Trailer(n.hidden));
  }

  lemma ParseEncryptionField(n: Network)
    requires ';' !in n.encryption && ';' !in n.password
    ensures ParseEncryption(n.ssid, n.encryption + ";" + ("P:" + (n.password + ";" + Trailer(n.hidden)))) == Some(n)
  {
    var afterP := n.password + ";" + Trailer(n.hidden);
    ParsePasswordField(n);
    StripPrefixOf("P:", afterP);
    SplitAtFieldEnd(n.encryption, "P:" + afterP);
  }

  lemma ParseSsidField(n: Network)
    requires Unambiguous(n)
    ensures ParseSsid(n.ssid + ";" + ("T:" + (n.encryption + ";" + ("P:" + (n.password + ";" + Trailer(n.hidden)))))) == Some(n)
  {
    var afterT := n.encryption + ";" + ("P:" + (n.password + ";" + Trailer(n.hidden)));
    ParseEncryptionField(n);
    StripPrefixOf("T:", afterT);
    SplitAtFieldEnd(n.ssid, "T:" + afterT);
  }

  /** Round trip: a payload whose fields hold no semicolon reads back as the same network. */
  lemma ParsePayload(n: Network)
    requires Unambiguous(n)
    ensures Parse(Payload(n)) == Some(n)
  {
    var afterPrefix := n.ssid + ";" + ("T:" + (n.encryption + ";" + ("P:" + (n.password + ";" + Trailer(n.hidden)))));
    PayloadFields(n);
    ParseSsidField(n);
    StripPrefixOf(Prefix, afterPrefix);
  }

  /** The text that follows the SSID's `;` in the payload of `n`. */
  function AfterSsid(n: Network): string {
    "T:" + (n.encryption + ";" + ("P:" + (n.password + ";" + Trailer(n.hidden))))
  }

  lemma PasswordFieldOfParse(ssid: string, encryption: string, s: string)
    requires ParsePassword(ssid, encryption, s).Some?
    ensures var n := ParsePassword(ssid, encryption, s).value;
            n.ssid == ssid && n.encryption == encryption && ';' !in n.password &&
            s == n.password + ";" + Trailer(n.hidden)
  {
    var (password, tail) := SplitAtSemicolon(s).value;
    assert tail == Trailer(ParsePassword(ssid, encryption, s).value.hidden);
  }

  lemma EncryptionFieldOfParse(ssid: string, s: string)
    requires ParseEncryption(ssid, s).Some?
    ensures var n := ParseEncryption(ssid, s).value;
            n.ssid == ssid && ';' !in n.encryption && ';' !in n.password &&
            s == n.encryption + ";" + ("P:" + (n.password + ";" + Trailer(n.hidden)))
  {
    var (encryption, rest) := SplitAtSemicolon(s).value;
    var afterP := StripPrefix("P:", rest).value;
    PasswordFieldOfParse(ssid, encryption, afterP);
  }

  lemma SsidFieldOfParse(s: string)
    requires ParseSsid(s).Some?
    ensures Unambiguous(ParseSsid(s).value)
    ensures s == ParseSsid(s).value.ssid + ";" + AfterSsid(ParseSsid(s).value)
  {
    var (ssid, rest) := SplitAtSemicolon(s).value;
    var afterT := StripPrefix("T:", rest).value;
    EncryptionFieldOfParse(ssid, afterT);
  }

  /** Conversely, everything `Parse` accepts is the payload of the network it reads. */
  lemma PayloadOfParse(r: string)
    requires Parse(r).Some?
    ensures Unambiguous(Parse(r).value)
    ensures Payload(Parse(r).value) == r
  {
    var afterPrefix := StripPrefix(Prefix, r).value;
    SsidFieldOfParse(afterPrefix);
    PayloadFields(Parse(r).value);
  }

  /** A non-empty payload is framed by `WIFI:S:` at the front and `;;` at the end. */
  lemma PayloadFraming(n: Network)
    requires n.ssid != []
    ensures |Payload(n)| >= |Prefix| + 2
    ensures Payload(n)[..|Prefix|] == Prefix
    ensures Payload(n)[|Payload(n)| - 2..] == ";;"
  {
    var r := Payload(n);
    var tail := n.ssid + ";T:" + n.encryption + ";P:" + n.password
                + (if n.hidden then ";H:true" else []);
    assert r == Prefix + tail + ";;";
    assert (Prefix + tail + ";;")[..|Prefix|] == Prefix;
    assert (Prefix + tail + ";;")[|r| - 2..] == ";;";
  }

  /** The hidden payload is the visible payload with `H:true;` inserted before its final
      `;`, and nothing else differs. */
  lemma HiddenInsertsFlag(n: Network)
    requires n.ssid != []
    ensures var shown := Payload(n.(hidden := false));
            |shown| >= 1 &&
            Payload(n.(hidden := true)) == shown[..|shown| - 1] + HiddenParam + ";"
  {
    var body := Prefix + n.ssid + ";T:" + n.encryption + ";P:" + n.password + ";";
    var shown := Payload(n.(hidden := false));
    assert shown == body + ";";
    assert shown[..|shown| - 1] == body;
  }

  /** The fields are not escaped, so a password can forge the hidden flag: a visible
      network whose password ends in `;H:true` gets the same payload as a hidden one. */
  lemma PasswordForgesHiddenFlag()
    ensures var visible := Network("x", "p;H:true", "WPA", false);
            var hidden := Network("x", "p", "WPA", true);
            visible != hidden && Payload(visible) == Payload(hidden)
  {
  }
}
