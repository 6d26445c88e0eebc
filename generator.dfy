/**
 * `genDomain` of the code generator: the base address baked into the
 * generated client, taken from the Swagger document when it names a host
 * and from the build configuration otherwise.
 */
module Generator {
  import opened JsValues

  /** The two fields of a Swagger document that genDomain reads. */
  datatype SwaggerDoc = SwaggerDoc(host: JsValue, basePath: JsValue)

  /** The three fields of the build configuration that genDomain reads. */
  datatype BuildConfig = BuildConfig(protocol: JsValue, host: JsValue, basePath: JsValue)

  /** The configuration the repository ships. */
  const ShippedConfig := BuildConfig(Str("http"), Str("demo.heclouds.com"), Str("/baasapi"))

  /** `/^http(s)?:\/\//.test(text)` */
  predicate HasScheme(text: string)
  {
    StartsWith(text, "http://") || StartsWith(text, "https://")
  }

  /** `${conf.protocol}://${conf.host}${conf.basePath}` */
  function ConfigDomain(conf: BuildConfig): string
  {
    ToStr(conf.protocol) + "://" + ToStr(conf.host) + ToStr(conf.basePath)
  }

  /** genDomain as written: an absent basePath is rendered through the template literal. */
  function GenDomain(doc: SwaggerDoc, conf: BuildConfig): (r: string)
    ensures !Truthy(doc.host) ==> r == ConfigDomain(conf)
    ensures Truthy(doc.host) && HasScheme(ToStr(doc.host)) ==> r == ToStr(doc.host) + ToStr(doc.basePath)
    ensures Truthy(doc.host) && !HasScheme(ToStr(doc.host)) ==>
              r == ToStr(conf.protocol) + "://" + ToStr(doc.host) + ToStr(doc.basePath)
  {
    if !Truthy(doc.host) then ConfigDomain(conf)
    else if HasScheme(ToStr(doc.host)) then ToStr(doc.host) + ToStr(doc.basePath)
    else ToStr(conf.protocol) + "://" + ToStr(doc.host) + ToStr(doc.basePath)
  }

  /** The text a basePath contributes when an absent one means "served directly under the host". */
  function BasePathText(basePath: JsValue): (r: string)
    ensures basePath == Undefined ==> r == ""
    ensures basePath != Undefined ==> r == ToStr(basePath)
  {
    if basePath == Undefined then "" else ToStr(basePath)
  }

  /** genDomain with an absent document basePath contributing nothing. */
  function GenDomainCorrected(doc: SwaggerDoc, conf: BuildConfig): (r: string)
    ensures !Truthy(doc.host) ==> r == ConfigDomain(conf)
    ensures Truthy(doc.host) && HasScheme(ToStr(doc.host)) ==> r == ToStr(doc.host) + BasePathText(doc.basePath)
    ensures Truthy(doc.host) && !HasScheme(ToStr(doc.host)) ==>
              r == ToStr(conf.protocol) + "://" + ToStr(doc.host) + BasePathText(doc.basePath)
  {
    if !Truthy(doc.host) then ConfigDomain(conf)
    else if HasScheme(ToStr(doc.host)) then ToStr(doc.host) + BasePathText(doc.basePath)
    else ToStr(conf.protocol) + "://" + ToStr(doc.host) + BasePathText(doc.basePath)
  }

  /** Without a document host the shipped configuration yields the demo server's address. */
  lemma ShippedFallback(doc: SwaggerDoc)
    requires !Truthy(doc.host)
    ensures GenDomain(doc, ShippedConfig) == "http://demo.heclouds.com/baasapi"
    ensures GenDomainCorrected(doc, ShippedConfig) == "http://demo.heclouds.com/baasapi"
  {
    ShippedDomain();
  }

  /** The address the shipped configuration spells out. */
  lemma ShippedDomain()
    ensures ConfigDomain(ShippedConfig) == "http://demo.heclouds.com/baasapi"
  {
    assert "http" + "://" == "http://";
    assert "http://" + "demo.heclouds.com" == "http://demo.heclouds.com";
    assert "http://demo.heclouds.com" + "/baasapi" == "http://demo.heclouds.com/baasapi";
  }

  /** A document host decides the domain: the configuration's host and basePath play no part. */
  lemma DocHostOverridesConfig(doc: SwaggerDoc, c1: BuildConfig, c2: BuildConfig)
    requires Truthy(doc.host)
    requires c1.protocol == c2.protocol
    ensures GenDomainCorrected(doc, c1) == GenDomainCorrected(doc, c2)
    ensures GenDomain(doc, c1) == GenDomain(doc, c2)
  {
  }

  /** Whenever the document names a host, the document's basePath is the tail of the domain. */
  lemma DocBasePathIsSuffix(doc: SwaggerDoc, conf: BuildConfig)
    requires Truthy(doc.host)
    ensures var r := GenDomain(doc, conf);
            var tail := ToStr(doc.basePath);
            |tail| <= |r| && r[|r| - |tail|..] == tail
  {
    var r := GenDomain(doc, conf);
    var tail := ToStr(doc.basePath);
    var lead := if HasScheme(ToStr(doc.host)) then ToStr(doc.host) else ToStr(conf.protocol) + "://" + ToStr(doc.host);
    assert r == lead + tail;
    assert r[|lead|..] == tail;
  }

  /** Text that does not start with a lower-case `h` has no scheme. */
  lemma NoScheme(text: string)
    requires |text| > 0 && text[0] != 'h'
    ensures !HasScheme(text)
  {
    if |text| >= 7 {
      assert text[..7][0] == text[0];
      assert "http://"[0] == 'h';
    }
    if |text| >= 8 {
      assert text[..8][0] == text[0];
      assert "https://"[0] == 'h';
    }
  }

  /** The scheme test is case-sensitive: an upper-case scheme gets the configured protocol in front of it. */
  lemma UpperCaseSchemeNotRecognised()
    ensures GenDomain(SwaggerDoc(Str("HTTPS://x"), Str("/b")), ShippedConfig) == "http://HTTPS://x/b"
  {
    var host := "HTTPS://x";
    NoScheme(host);
    assert GenDomain(SwaggerDoc(Str(host), Str("/b")), ShippedConfig) == "http" + "://" + host + "/b";
    assert "http" + "://" == "http://";
    assert "http://" + host == "http://HTTPS://x";
    assert "http://HTTPS://x" + "/b" == "http://HTTPS://x/b";
  }

  /** A document host with a scheme ignores the configuration altogether. */
  lemma SchemeHostIgnoresConfig(doc: SwaggerDoc, c1: BuildConfig, c2: BuildConfig)
    requires Truthy(doc.host) && HasScheme(ToStr(doc.host))
    ensures GenDomain(doc, c1) == GenDomain(doc, c2)
    ensures GenDomainCorrected(doc, c1) == GenDomainCorrected(doc, c2)
  {
  }

  /** The host part the domain starts with when the document names a host: the host itself when it has a scheme, else the configured protocol and `://` before it. */
  function HostPart(doc: SwaggerDoc, conf: BuildConfig): string
  {
    if HasScheme(ToStr(doc.host)) then ToStr(doc.host) else ToStr(conf.protocol) + "://" + ToStr(doc.host)
  }

  /** Whenever the document host is used, the corrected domain is the host part followed by exactly the basePath text. */
  lemma CorrectedDomainLayout(doc: SwaggerDoc, conf: BuildConfig)
    requires Truthy(doc.host)
    ensures GenDomainCorrected(doc, conf) == HostPart(doc, conf) + BasePathText(doc.basePath)
    ensures StartsWith(GenDomainCorrected(doc, conf), HostPart(doc, conf))
  {
    var lead, r := HostPart(doc, conf), GenDomainCorrected(doc, conf);
    assert r == lead + BasePathText(doc.basePath);
    assert r[..|lead|] == lead;
  }

  /** The two versions agree whenever the document states a basePath. */
  lemma CorrectionOnlyTouchesAbsentBasePath(doc: SwaggerDoc, conf: BuildConfig)
    requires doc.basePath != Undefined
    ensures GenDomainCorrected(doc, conf) == GenDomain(doc, conf)
  {
  }

  /** A document with host "x.org" and no basePath: as written the domain ends in "undefined". */
  lemma AbsentBasePathRendersUndefined()
    ensures GenDomain(SwaggerDoc(Str("x.org"), Undefined), ShippedConfig) == "http://x.orgundefined"
  {
    var host := "x.org";
    NoScheme(host);
    assert GenDomain(SwaggerDoc(Str(host), Undefined), ShippedConfig) == "http" + "://" + host + "undefined";
  }

  /** The same document under the corrected version: the domain is the host under its configured scheme. */
  lemma AbsentBasePathCorrected()
    ensures GenDomainCorrected(SwaggerDoc(Str("x.org"), Undefined), ShippedConfig) == "http://x.org"
  {
    var host := "x.org";
    NoScheme(host);
    assert GenDomainCorrected(SwaggerDoc(Str(host), Undefined), ShippedConfig) == "http" + "://" + host + "";
  }
}
