/**
 The off-site payment form of the MIPS gateway. Before anything is sent, it checks
 the six credentials of the plugin configuration in a fixed order and throws for the
 first one PHP's empty() rejects; only a complete configuration reaches
 getMipsCheckoutIframe, whose result becomes the iframe markup of the form.
 */
module PaymentForm {
  import opened Basics
  import opened Php
  import opened Gateway

  /** The text after the key in the exception message; it starts with "is", not with a space. */
  const MissingKeyText: string := "is" + " missing from MIPS payment gateway configurations."

  /** The exception message for a missing key: the key, then the text, with no space between. */
  function MissingKeyMessage(key: string): (m: string)
    ensures |m| == |key| + 52
    ensures m[..|key|] == key
    ensures m[|key|..] == MissingKeyText
    ensures m[|key|] == 'i' && m[|key| + 1] == 's'
  {
    key + MissingKeyText
  }

  /**
   The foreach over the credential keys: the first key, in list order, whose entry
   empty() rejects, or None when every entry is non-empty.
   */
  function FirstEmptyKey(cfg: Array, keys: seq<string>): (r: Option<string>)
    ensures r.None? <==> forall i | 0 <= i < |keys| :: !IsEmpty(Lookup(cfg, keys[i]))
    ensures r.Some? ==> exists i | 0 <= i < |keys| ::
      && keys[i] == r.value
      && IsEmpty(Lookup(cfg, keys[i]))
      && forall j | 0 <= j < i :: !IsEmpty(Lookup(cfg, keys[j]))
  {
    if |keys| == 0 then None
    else if IsEmpty(Lookup(cfg, keys[0])) then Some(keys[0])
    else FirstEmptyKey(cfg, keys[1..])
  }

  /** Some key of the list is empty exactly when the walk finds a first empty key. */
  lemma FirstEmptyKeyFound(cfg: Array, keys: seq<string>)
    ensures (exists k | k in keys :: IsEmpty(Lookup(cfg, k))) <==> FirstEmptyKey(cfg, keys).Some?
  {
    if FirstEmptyKey(cfg, keys).None? {
      forall k | k in keys
        ensures !IsEmpty(Lookup(cfg, k))
      {
        var i :| 0 <= i < |keys| && keys[i] == k;
      }
    }
  }

  /** What building the form produces: the iframe markup or an exception, and every HTTP call made. */
  datatype FormOutcome = FormOutcome(iframe: Result<PhpString>, calls: seq<Outbound>)

  /**
   buildConfigurationForm of the payment form. An incomplete configuration throws
   before any request exists; a complete one makes exactly the one checkout call,
   and the form's iframe markup is what getMipsCheckoutIframe returns (or its
   exception).
   */
  function BuildPaymentForm(cfg: Array, order: Order, returnUrl: PhpString, language: PhpString, send: Outbound -> Transport): (r: FormOutcome)
    ensures r.calls == [] || r.calls == [CheckoutCall(cfg, order, returnUrl, language)]
    ensures r.calls != [] ==> r.iframe == CheckoutIframe(cfg, order, returnUrl, language, send)
    ensures r.calls == [] ==> r.iframe.Thrown?
  {
    match FirstEmptyKey(cfg, CredentialKeys)
    case Some(key) => FormOutcome(Thrown(MissingKeyMessage(key)), [])
    case None => FormOutcome(CheckoutIframe(cfg, order, returnUrl, language, send), [CheckoutCall(cfg, order, returnUrl, language)])
  }

  /** The form sends nothing exactly when some credential is empty. */
  lemma FormCallsOnlyWhenComplete(cfg: Array, order: Order, returnUrl: PhpString, language: PhpString, send: Outbound -> Transport)
    ensures (exists k | k in CredentialKeys :: IsEmpty(Lookup(cfg, k)))
        <==> BuildPaymentForm(cfg, order, returnUrl, language, send).calls == []
  {
    FirstEmptyKeyFound(cfg, CredentialKeys);
  }

  /**
   When the form refuses, its exception names the first credential, in list order,
   that empty() rejects.
   */
  lemma FormReportsFirstMissingKey(cfg: Array, order: Order, returnUrl: PhpString, language: PhpString, send: Outbound -> Transport)
    requires BuildPaymentForm(cfg, order, returnUrl, language, send).calls == []
    ensures exists i | 0 <= i < |CredentialKeys| ::
      && IsEmpty(Lookup(cfg, CredentialKeys[i]))
      && (forall j | 0 <= j < i :: !IsEmpty(Lookup(cfg, CredentialKeys[j])))
      && BuildPaymentForm(cfg, order, returnUrl, language, send).iframe == Thrown(MissingKeyMessage(CredentialKeys[i]))
  {
  }

  /** The message names the key: different keys give different messages. */
  lemma MissingKeyMessageInjective(k1: string, k2: string)
    requires MissingKeyMessage(k1) == MissingKeyMessage(k2)
    ensures k1 == k2
  {
    assert |k1| == |k2|;
    assert k1 == MissingKeyMessage(k1)[..|k1|] == MissingKeyMessage(k2)[..|k2|] == k2;
  }

  /**
   A freshly installed gateway cannot render the form: every credential defaults to
   '', so the first key, id_merchant, is reported and no request is made.
   */
  lemma DefaultConfigurationRejected(parentDefaults: Array, order: Order, returnUrl: PhpString, language: PhpString, send: Outbound -> Transport)
    ensures BuildPaymentForm(DefaultConfiguration(parentDefaults), order, returnUrl, language, send)
         == FormOutcome(Thrown(MissingKeyMessage(IdMerchant)), [])
  {
    var cfg := DefaultConfiguration(parentDefaults);
    assert Lookup(cfg, IdMerchant) == Str("");
    assert FirstEmptyKey(cfg, CredentialKeys) == Some(IdMerchant);
  }

  /**
   Saving six non-empty credentials is enough: whatever the configuration held
   before, the form then makes exactly the one checkout call.
   */
  lemma SubmittedConfigurationAccepted(cfg: Array, values: Array, order: Order, returnUrl: PhpString, language: PhpString, send: Outbound -> Transport)
    requires forall k | k in CredentialKeys :: !IsEmpty(Lookup(values, k))
    ensures var saved := SubmitConfiguration(cfg, values);
      BuildPaymentForm(saved, order, returnUrl, language, send).calls == [CheckoutCall(saved, order, returnUrl, language)]
  {
    var saved := SubmitConfiguration(cfg, values);
    assert forall k | k in CredentialKeys :: !IsEmpty(Lookup(saved, k));
    FormCallsOnlyWhenComplete(saved, order, returnUrl, language, send);
  }
}
