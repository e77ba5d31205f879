/**
 The MIPS off-site payment gateway plugin: its default and submitted configuration,
 the checkout request it builds for an order, the Basic authorization header, the
 endpoint chosen by the configured mode, and how the outcome of the HTTP call becomes
 the iframe markup or an error.

 Collaborators the plugin reaches at run time are parameters here: the current
 language id, and the HTTP transport as a function from the outgoing call to its
 outcome.
 */
module Gateway {
  import opened Basics
  import opened Php
  import Base64

  /** The six credential keys, in the order the configuration form lists them. */
  const IdMerchant: string := "id_merchant"
  const IdEntity: string := "id_entity"
  const IdOperator: string := "id_operator"
  const OperatorPassword: string := "operator_password"
  const BasicUsername: string := "basic_username"
  const BasicPassword: string := "basic_password"

  const CredentialKeys: seq<string> :=
    [IdMerchant, IdEntity, IdOperator, OperatorPassword, BasicUsername, BasicPassword]

  /** The configuration key holding the environment mode ('test' or 'live'). */
  const Mode: string := "mode"

  /** The message of the exception thrown when the HTTP call fails. */
  const ConnectionFailed: string :=
    "Connection to MIPS failed. Please try again or contact an administrator to resolve the issue."

  /** The total price of an order: a decimal number as text and an ISO 4217 currency code. */
  datatype Price = Price(number: PhpString, currencyCode: PhpString)

  /** The part of a commerce order the gateway reads. */
  datatype Order = Order(id: PhpString, totalPrice: Price)

  /** The `authentify` block: the four merchant credentials, as configured. */
  datatype Authentify = Authentify(idMerchant: Value, idEntity: Value, idOperator: Value, operatorPassword: Value)

  /** The `order` block: `id_order`, `currency` and `amount`. */
  datatype OrderBlock = OrderBlock(idOrder: PhpString, currency: PhpString, amount: PhpString)

  /** The `iframe_behavior` block: `height`, `width`, `custom_redirection_url` and `language`. */
  datatype IframeBehavior = IframeBehavior(height: PhpString, width: PhpString, customRedirectionUrl: PhpString, language: PhpString)

  /** The checkout request sent to MIPS, before JSON encoding. */
  datatype CheckoutRequest = CheckoutRequest(
    authentify: Authentify,
    order: OrderBlock,
    iframeBehavior: IframeBehavior,
    requestMode: PhpString,
    touchpoint: PhpString)

  /** One outgoing HTTP POST: endpoint, Authorization header and the request it carries. */
  datatype Outbound = Outbound(url: PhpString, authorization: PhpString, request: CheckoutRequest)

  /** What the HTTP client reports: a response body, or an exception carrying the upstream body. */
  datatype Transport = Delivered(body: PhpString) | Failed(upstreamBody: PhpString)

  /**
   The plugin's default configuration: the six credentials set to '' in front of
   the parent plugin's defaults. PHP's array `+` keeps the left operand's entry
   for a key both sides have, so the credentials are '' whatever the parent says.
   */
  function DefaultConfiguration(parentDefaults: Array): (cfg: Array)
    ensures forall k | k in CredentialKeys :: k in cfg && cfg[k] == Str("")
    ensures forall k | k !in CredentialKeys :: k in cfg <==> k in parentDefaults
    ensures forall k | k !in CredentialKeys && k in parentDefaults :: cfg[k] == parentDefaults[k]
  {
    parentDefaults + map k | k in CredentialKeys :: Str("")
  }

  /**
   Saving the configuration form: each of the six credentials is overwritten with the
   submitted value (null when the submission lacks it); every other key is kept.
   The parent plugin's own saving step is taken as already applied to `cfg`.
   */
  function SubmitConfiguration(cfg: Array, values: Array): (r: Array)
    ensures forall k | k in CredentialKeys :: k in r && r[k] == Lookup(values, k)
    ensures forall k | k !in CredentialKeys :: k in r <==> k in cfg
    ensures forall k | k !in CredentialKeys && k in cfg :: r[k] == cfg[k]
  {
    cfg + map k | k in CredentialKeys :: Lookup(values, k)
  }

  /** Submitting the same values twice leaves the configuration as one submission does. */
  lemma SubmitConfigurationIdempotent(cfg: Array, values: Array)
    ensures SubmitConfiguration(SubmitConfiguration(cfg, values), values) == SubmitConfiguration(cfg, values)
  {
  }

  /** The four credential keys that go into the `authentify` block. */
  const AuthentifyKeys: seq<string> := [IdMerchant, IdEntity, IdOperator, OperatorPassword]

  /** The request getMipsCheckoutIframe assembles from the configuration, the order, the return URL and the language. */
  function CheckoutRequestFor(cfg: Array, order: Order, returnUrl: PhpString, language: PhpString): (r: CheckoutRequest)
    ensures AuthentifyObject(r.authentify) == map k | k in AuthentifyKeys :: Lookup(cfg, k)
    ensures r.order.idOrder == order.id && r.order.currency == order.totalPrice.currencyCode
      && r.order.amount == order.totalPrice.number
    ensures r.iframeBehavior.customRedirectionUrl == returnUrl && r.iframeBehavior.language == language
  {
    CheckoutRequest(
      Authentify(Lookup(cfg, IdMerchant), Lookup(cfg, IdEntity), Lookup(cfg, IdOperator), Lookup(cfg, OperatorPassword)),
      OrderBlock(order.id, order.totalPrice.currencyCode, order.totalPrice.number),
      IframeBehavior("700px", "100%", returnUrl, language),
      "simple",
      "web")
  }

  /** The `authentify` block as the JSON object it is encoded to, keyed by its JSON names. */
  function AuthentifyObject(a: Authentify): map<string, Value>
  {
    map[
      IdMerchant := a.idMerchant,
      IdEntity := a.idEntity,
      IdOperator := a.idOperator,
      OperatorPassword := a.operatorPassword]
  }

  /**
   The `authentify` object is the configuration restricted to the four merchant
   credential keys, under the same key names: neither Basic credential, nor the
   mode, nor any other configuration entry appears in it.
   */
  lemma AuthentifyIsCredentialSubset(cfg: Array, order: Order, returnUrl: PhpString, language: PhpString)
    ensures AuthentifyObject(CheckoutRequestFor(cfg, order, returnUrl, language).authentify)
         == map k | k in AuthentifyKeys :: Lookup(cfg, k)
    ensures BasicUsername !in AuthentifyKeys && BasicPassword !in AuthentifyKeys && Mode !in AuthentifyKeys
  {
  }

  /**
   The constant part of the request, whatever the inputs: the iframe is 700px high
   and 100% wide, request_mode is "simple" and touchpoint is "web".
   */
  lemma RequestFields(cfg: Array, order: Order, returnUrl: PhpString, language: PhpString)
    ensures var r := CheckoutRequestFor(cfg, order, returnUrl, language);
      && r.iframeBehavior.height == "700px"
      && r.iframeBehavior.width == "100%"
      && r.requestMode == "simple"
      && r.touchpoint == "web"
  {
  }

  /** The request reads the configuration only through the four merchant credentials. */
  lemma RequestIgnoresOtherConfiguration(cfg1: Array, cfg2: Array, order: Order, returnUrl: PhpString, language: PhpString)
    requires forall k | k in AuthentifyKeys :: Lookup(cfg1, k) == Lookup(cfg2, k)
    ensures CheckoutRequestFor(cfg1, order, returnUrl, language) == CheckoutRequestFor(cfg2, order, returnUrl, language)
  {
  }

  /**
   Nothing is reformatted or dropped: the request determines the four merchant
   credentials, the order, the return URL and the language it was built from.
   */
  lemma RequestDeterminesInputs(
    cfg1: Array, order1: Order, returnUrl1: PhpString, language1: PhpString,
    cfg2: Array, order2: Order, returnUrl2: PhpString, language2: PhpString)
    requires CheckoutRequestFor(cfg1, order1, returnUrl1, language1) == CheckoutRequestFor(cfg2, order2, returnUrl2, language2)
    ensures forall k | k in AuthentifyKeys :: Lookup(cfg1, k) == Lookup(cfg2, k)
    ensures order1 == order2 && returnUrl1 == returnUrl2 && language1 == language2
  {
  }

  /** `basic_username . ':' . basic_password`, a missing entry reading as ''. */
  function BasicCredentials(cfg: Array): PhpString
  {
    Concat(Concat(ToString(Lookup(cfg, BasicUsername)), ":"), ToString(Lookup(cfg, BasicPassword)))
  }

  /** The octets of the Basic credentials: the user's, one colon, the password's. */
  lemma BasicCredentialsOctets(cfg: Array)
    ensures Octets(BasicCredentials(cfg)) ==
      Octets(ToString(Lookup(cfg, BasicUsername))) + [':' as int] + Octets(ToString(Lookup(cfg, BasicPassword)))
  {
    var user, password := ToString(Lookup(cfg, BasicUsername)), ToString(Lookup(cfg, BasicPassword));
    OctetsConcat(user, ":");
    OctetsConcat(Concat(user, ":"), password);
    assert Octets(":") == [':' as int];
  }

  /**
   The Authorization header: the Basic scheme of section 2 of RFC 7617 over the
   Base64 encoding of section 4 of RFC 4648. After "Basic " comes text of length
   4 * ceil(n / 3) for the n octets of user ':' password, made only of alphabet and
   padding characters, which decodes back to exactly those octets.
   */
  function AuthorizationHeader(cfg: Array): (h: PhpString)
    ensures |h| >= 6 && h[..6] == "Basic "
    ensures var n := |ToString(Lookup(cfg, BasicUsername))| + 1 + |ToString(Lookup(cfg, BasicPassword))|;
      |h| == 6 + 4 * ((n + 2) / 3)
    ensures forall i | 6 <= i < |h| :: Base64.IsEncodingChar(h[i])
    ensures Base64.Decode(h[6..]) ==
      Some(Octets(ToString(Lookup(cfg, BasicUsername))) + [':' as int] + Octets(ToString(Lookup(cfg, BasicPassword))))
  {
    BasicCredentialsOctets(cfg);
    var encoded := Base64.Encode(Octets(BasicCredentials(cfg)));
    Base64.DecodeEncode(Octets(BasicCredentials(cfg)));
    BasicSchemeSplit(encoded);
    "Basic " + encoded
  }

  /** "Basic " followed by Base64 text is a PHP string that splits back into its two parts. */
  lemma BasicSchemeSplit(encoded: string)
    requires forall i | 0 <= i < |encoded| :: Base64.IsEncodingChar(encoded[i])
    ensures IsByteString("Basic " + encoded)
    ensures ("Basic " + encoded)[..6] == "Basic " && ("Basic " + encoded)[6..] == encoded
  {
    var h := "Basic " + encoded;
    forall i | 6 <= i < |h|
      ensures h[i] as int < 256
    {
      assert h[i] == encoded[i - 6];
    }
  }

  /**
   Section 2 of RFC 7617 forbids a colon in the user-id; for such users the header
   determines both the user name and the password.
   */
  lemma AuthorizationHeaderDeterminesCredentials(cfg1: Array, cfg2: Array)
    requires ':' !in ToString(Lookup(cfg1, BasicUsername)) && ':' !in ToString(Lookup(cfg2, BasicUsername))
    requires AuthorizationHeader(cfg1) == AuthorizationHeader(cfg2)
    ensures ToString(Lookup(cfg1, BasicUsername)) == ToString(Lookup(cfg2, BasicUsername))
    ensures ToString(Lookup(cfg1, BasicPassword)) == ToString(Lookup(cfg2, BasicPassword))
  {
    var u1, p1 := ToString(Lookup(cfg1, BasicUsername)), ToString(Lookup(cfg1, BasicPassword));
    var u2, p2 := ToString(Lookup(cfg2, BasicUsername)), ToString(Lookup(cfg2, BasicPassword));
    var h := AuthorizationHeader(cfg1);
    var x := Octets(u1) + [':' as int] + Octets(p1);
    assert x == Octets(u2) + [':' as int] + Octets(p2);
    SplitAtFirstColon(u1, p1, u2, p2);
  }

  /** In "user:password" with a colon-free user, the first colon comes right after the user. */
  lemma ColonOnlyAfterUser(u: PhpString, p: PhpString, i: nat)
    requires ':' !in u && i < |u|
    ensures (Octets(u) + [':' as int] + Octets(p))[i] != ':' as int
    ensures (Octets(u) + [':' as int] + Octets(p))[|u|] == ':' as int
  {
    assert u[i] in u;
  }

  /** Two "user:password" octet strings with colon-free users split the same way. */
  lemma SplitAtFirstColon(u1: PhpString, p1: PhpString, u2: PhpString, p2: PhpString)
    requires ':' !in u1 && ':' !in u2
    requires Octets(u1) + [':' as int] + Octets(p1) == Octets(u2) + [':' as int] + Octets(p2)
    ensures u1 == u2 && p1 == p2
  {
    var x := Octets(u1) + [':' as int] + Octets(p1);
    if |u1| < |u2| {
      ColonOnlyAfterUser(u2, p2, |u1|);
      assert false;
    } else if |u2| < |u1| {
      ColonOnlyAfterUser(u1, p1, |u2|);
      assert false;
    }
    assert Octets(u1) == x[..|u1|] == Octets(u2);
    assert Octets(p1) == x[|u1| + 1..] == Octets(p2);
    OctetsInjective(u1, u2);
    OctetsInjective(p1, p2);
  }

  /**
   getServerUrl: a PHP switch on the configured mode. 'test' selects 'test-url',
   'live' selects 'production-url', and any other mode, a missing one included,
   falls through to ''.
   */
  function ServerUrl(mode: Value): (url: PhpString)
    ensures url == "test-url" <==> mode == Str("test")
    ensures url == "production-url" <==> mode == Str("live")
    ensures url == "" <==> mode != Str("test") && mode != Str("live")
  {
    if mode == Str("test") then "test-url"
    else if mode == Str("live") then "production-url"
    else ""
  }

  /**
   apiRequest, with the HTTP client abstracted to `send`: the POST goes to the URL
   the configured mode selects, with the given Authorization header and request.
   A delivered response body is returned as it is; a failed call throws the fixed
   connection message, whatever the upstream body was.
   */
  function ApiRequest(cfg: Array, data: CheckoutRequest, authHeader: PhpString, send: Outbound -> Transport): (r: Result<PhpString>)
    ensures var outcome := send(Outbound(ServerUrl(Lookup(cfg, Mode)), authHeader, data));
      && (r.Returned? <==> outcome.Delivered?)
      && (r.Returned? ==> r.value == outcome.body)
      && (r.Thrown? ==> r.message == ConnectionFailed)
  {
    match send(Outbound(ServerUrl(Lookup(cfg, Mode)), authHeader, data))
    case Delivered(body) => Returned(body)
    case Failed(_) => Thrown(ConnectionFailed)
  }

  /** The two named endpoints are distinct and non-empty. */
  lemma ServerUrlsDistinct()
    ensures ServerUrl(Str("test")) != ServerUrl(Str("live"))
    ensures ServerUrl(Str("test")) != "" && ServerUrl(Str("live")) != ""
  {
  }

  /**
   The end user never sees the upstream error: two failed calls, whatever their
   upstream bodies, produce the same exception.
   */
  lemma FailureHidesUpstreamBody(cfg: Array, data: CheckoutRequest, authHeader: PhpString, send1: Outbound -> Transport, send2: Outbound -> Transport)
    requires send1(Outbound(ServerUrl(Lookup(cfg, Mode)), authHeader, data)).Failed?
    requires send2(Outbound(ServerUrl(Lookup(cfg, Mode)), authHeader, data)).Failed?
    ensures ApiRequest(cfg, data, authHeader, send1) == ApiRequest(cfg, data, authHeader, send2) == Thrown(ConnectionFailed)
  {
  }

  /**
   The one outgoing call getMipsCheckoutIframe makes: to the endpoint of the
   configured mode (none for an unknown mode), with a Basic header that decodes to
   the configured user and password, carrying the request built for the order.
   */
  function CheckoutCall(cfg: Array, order: Order, returnUrl: PhpString, language: PhpString): (r: Outbound)
    ensures r.url == "" <==> Lookup(cfg, Mode) != Str("test") && Lookup(cfg, Mode) != Str("live")
    ensures |r.authorization| >= 6 && r.authorization[..6] == "Basic "
    ensures Base64.Decode(r.authorization[6..]) ==
      Some(Octets(ToString(Lookup(cfg, BasicUsername))) + [':' as int] + Octets(ToString(Lookup(cfg, BasicPassword))))
    ensures AuthentifyObject(r.request.authentify) == map k | k in AuthentifyKeys :: Lookup(cfg, k)
    ensures r.request.order.idOrder == order.id
    ensures r.url == ServerUrl(Lookup(cfg, Mode))
    ensures r.request == CheckoutRequestFor(cfg, order, returnUrl, language)
  {
    Outbound(ServerUrl(Lookup(cfg, Mode)), AuthorizationHeader(cfg), CheckoutRequestFor(cfg, order, returnUrl, language))
  }

  /**
   getMipsCheckoutIframe: builds the request and the header, posts them, and yields
   the response body as the iframe markup, or throws the connection message.
   */
  function CheckoutIframe(cfg: Array, order: Order, returnUrl: PhpString, language: PhpString, send: Outbound -> Transport): (r: Result<PhpString>)
    ensures var outcome := send(CheckoutCall(cfg, order, returnUrl, language));
      && (r.Returned? <==> outcome.Delivered?)
      && (r.Returned? ==> r.value == outcome.body)
      && (r.Thrown? ==> r.message == ConnectionFailed)
  {
    ApiRequest(cfg, CheckoutRequestFor(cfg, order, returnUrl, language), AuthorizationHeader(cfg), send)
  }
}
