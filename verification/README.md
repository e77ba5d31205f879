# MIPS payment gateway for Drupal Commerce, modelled in Dafny

The MIPS gateway is an off-site (iframe) payment gateway plugin. It works in four steps.

1. It keeps six credentials in its plugin configuration: merchant id, entity id, operator id, operator password, Basic user name and Basic password.
2. When the payment form is built, it checks the six credentials in a fixed order. It refuses with an exception for the first one PHP's `empty()` rejects.
3. Otherwise it assembles a checkout request from the configuration, the order, the return URL and the current language. It POSTs the request to the endpoint the configured mode selects, with an `Authorization: Basic …` header.
4. The response body becomes the iframe markup of the form. A failed call becomes a fixed "Connection to MIPS failed" exception.

The project has five modules:

- `Basics`: bytes and `Option`.
- `Php`: the PHP semantics the plugin relies on.
  - Strings are octet strings.
  - A configuration entry is a string or null.
  - A missing array key reads as null, and `.` turns null into `''`.
  - `empty()` rejects null, `''` and `'0'`.
  - A function either returns a value or throws an exception with a message.
- `Base64`: the encoding of section 4 of RFC 4648, as PHP's `base64_encode` produces it, with a strict decoder. The decoder is its partner for round-trip proofs.
- `Gateway`: `MipsPaymentGateway.php`. This covers the default configuration, saving the configuration form, the checkout request, the Basic header, `getServerUrl`, `apiRequest` and `getMipsCheckoutIframe`.
- `PaymentForm`: `MipsPaymentForm.php`. This covers the credential check and the call to the gateway.

Some run-time collaborators are parameters, because the model cannot reach them:

- The HTTP client is a function `send: Outbound -> Transport`. It takes an outgoing call (URL, Authorization header, request) to a delivered body or a failure.
- The current language id is a string argument.
- The parent plugin's default configuration is an argument.

The form's outcome records every outgoing call. This makes "nothing is sent for an incomplete configuration" a property that can be stated.

The mode switch follows the code:

- `'test'` gives `'test-url'`.
- `'live'` gives `'production-url'`.
- Any other mode, including a missing one, gives `''`. It does not fail with an "unknown mode" error.

The return handler (`onReturn`) is an empty stub in the code and is not modelled.

## Model

| member | source | states |
|---|---|---|
| Gateway.DefaultConfiguration | src/Plugin/Commerce/PaymentGateway/MipsPaymentGateway.php:73-82 | Each of the six credentials is present and set to `''`, even when the parent's defaults have a value for it. Every other key is present exactly when the parent's defaults have it, and keeps the parent's value. |
| Gateway.SubmitConfiguration | src/Plugin/Commerce/PaymentGateway/MipsPaymentGateway.php:143-152 | Each of the six credentials takes the submitted value, or null when the submission lacks it. Every other configuration key keeps its presence and value. |
| Gateway.SubmitConfigurationIdempotent | src/Plugin/Commerce/PaymentGateway/MipsPaymentGateway.php:143-152 | Saving the same submitted values twice gives the same configuration as saving them once. |
| Gateway.AuthentifyIsCredentialSubset | src/Plugin/Commerce/PaymentGateway/MipsPaymentGateway.php:169-175 | The `authentify` object is the configuration restricted to `id_merchant`, `id_entity`, `id_operator` and `operator_password`, under the same names. The Basic credentials and the mode are not among them. |
| Gateway.RequestFields | src/Plugin/Commerce/PaymentGateway/MipsPaymentGateway.php:181-188 | Whatever the inputs, the iframe block is 700px high and 100% wide, `request_mode` is `simple` and `touchpoint` is `web`. |
| Gateway.CheckoutRequestFor | src/Plugin/Commerce/PaymentGateway/MipsPaymentGateway.php:169-189 | The request builder. The `authentify` object is exactly the configuration restricted to the four merchant keys. The order block carries the order id, currency code and amount of the total price. The iframe block carries the given return URL and language. |
| Gateway.RequestIgnoresOtherConfiguration | src/Plugin/Commerce/PaymentGateway/MipsPaymentGateway.php:166-189 | Two configurations that agree on the four merchant credentials give the same request. |
| Gateway.RequestDeterminesInputs | src/Plugin/Commerce/PaymentGateway/MipsPaymentGateway.php:166-189 | Equal requests come from equal merchant credentials, order, return URL and language. Nothing is dropped or merged. |
| Gateway.AuthorizationHeader | src/Plugin/Commerce/PaymentGateway/MipsPaymentGateway.php:191 | The header starts with `Basic `. The rest has length 4·⌈n/3⌉ for the n octets of `user:password`. It uses only Base64 alphabet and padding characters. It decodes back to exactly the user's octets, one colon, and the password's octets. A missing entry counts as empty. |
| Gateway.AuthorizationHeaderDeterminesCredentials | src/Plugin/Commerce/PaymentGateway/MipsPaymentGateway.php:191 | For user names without a colon, as section 2 of RFC 7617 requires, equal headers mean equal user names and equal passwords. |
| Gateway.ServerUrl | src/Plugin/Commerce/PaymentGateway/MipsPaymentGateway.php:234-244 | The URL is `test-url` exactly when the mode is `'test'`, and `production-url` exactly when it is `'live'`. It is `''` exactly when the mode is anything else, including missing. |
| Gateway.ServerUrlsDistinct | src/Plugin/Commerce/PaymentGateway/MipsPaymentGateway.php:234-244 | The two named endpoints are non-empty and different. |
| Gateway.ApiRequest | src/Plugin/Commerce/PaymentGateway/MipsPaymentGateway.php:208-226 | The POST goes to the URL selected by the mode, with the given header and request. The function returns exactly when the transport delivers, and then returns the body unchanged. Otherwise it throws the fixed connection message. |
| Gateway.FailureHidesUpstreamBody | src/Plugin/Commerce/PaymentGateway/MipsPaymentGateway.php:220-222 | Two failed calls give the same exception, whatever the upstream error bodies were. |
| Gateway.CheckoutCall | src/Plugin/Commerce/PaymentGateway/MipsPaymentGateway.php:191-193 | The one outgoing POST. Its URL is the one `getServerUrl` selects for the configured mode, so it is empty exactly when the mode is neither `'test'` nor `'live'`. Its header starts with `Basic ` and the rest decodes to the user's octets, a colon and the password's octets. Its request is the one the builder assembles for the configuration, order, return URL and language, with the four merchant credentials under their own names and the order id. |
| Gateway.CheckoutIframe | src/Plugin/Commerce/PaymentGateway/MipsPaymentGateway.php:165-194 | The iframe is the body the transport delivers for the one checkout call: the mode's URL, the Basic header and the assembled request. A failure gives the connection exception. |
| PaymentForm.FirstEmptyKey | src/PluginForm/MipsPaymentForm.php:24-29 | The loop finds nothing exactly when every listed entry passes `empty()`. What it finds is an empty entry, and every entry before it in the list is non-empty. |
| PaymentForm.FirstEmptyKeyFound | src/PluginForm/MipsPaymentForm.php:24-29 | Some listed key is empty exactly when the loop stops at a key. |
| PaymentForm.BuildPaymentForm | src/PluginForm/MipsPaymentForm.php:19-37 | The form makes no call or exactly the one checkout call. When it calls, its markup is what `getMipsCheckoutIframe` yields. When it makes no call, it throws. |
| PaymentForm.FormCallsOnlyWhenComplete | src/PluginForm/MipsPaymentForm.php:24-34 | No HTTP call is made exactly when one of the six credentials is empty (null, `''` or `'0'`). |
| PaymentForm.FormReportsFirstMissingKey | src/PluginForm/MipsPaymentForm.php:24-29 | When the form refuses, the exception names the first credential in list order that is empty, and every credential before it is non-empty. |
| Php.IsEmpty | src/PluginForm/MipsPaymentForm.php:26 | `empty()` on a configuration entry holds exactly when its string conversion is `''` or `'0'`, so null counts as empty. No string of two or more characters is empty. |
| PaymentForm.MissingKeyMessage | src/PluginForm/MipsPaymentForm.php:27 | The message is the key followed by exactly the 52 characters `is missing from MIPS payment gateway configurations.`. The text begins with `is` directly, with no space after the key. |
| PaymentForm.MissingKeyMessageInjective | src/PluginForm/MipsPaymentForm.php:27 | Different keys give different exception messages. |
| PaymentForm.DefaultConfigurationRejected | src/PluginForm/MipsPaymentForm.php:24-29 | With the default configuration the form throws for `id_merchant` and sends nothing. |
| PaymentForm.SubmittedConfigurationAccepted | src/PluginForm/MipsPaymentForm.php:24-34 | After saving six non-empty credentials, the form makes exactly the one checkout call, whatever the configuration held before. |
| Base64.AlphabetTable | src/Plugin/Commerce/PaymentGateway/MipsPaymentGateway.php:191 | The character for each 6-bit value is the entry at that index of the 64-character alphabet of section 4 of RFC 4648. |
| Base64.AlphabetMembership | src/Plugin/Commerce/PaymentGateway/MipsPaymentGateway.php:191 | A character decodes to a 6-bit value exactly when it is in the alphabet. |
| Base64.ValueOfCharOf | src/Plugin/Commerce/PaymentGateway/MipsPaymentGateway.php:191 | Decoding the character of a 6-bit value gives the value back, and that character is never the padding character. |
| Base64.CharOfValueOf | src/Plugin/Commerce/PaymentGateway/MipsPaymentGateway.php:191 | Encoding the value of an alphabet character gives the character back. |
| Base64.Encode | src/Plugin/Commerce/PaymentGateway/MipsPaymentGateway.php:191 | The output has 4·⌈n/3⌉ characters, all alphabet or `=`. Padding appears only in the last two positions. |
| Base64.TripleBitLayout | src/Plugin/Commerce/PaymentGateway/MipsPaymentGateway.php:191 | The four characters of a full group decode to values whose 24 bits, most significant first, are the bits of the three octets, as section 4 of RFC 4648 lays them out. |
| Base64.PairBitLayout | src/Plugin/Commerce/PaymentGateway/MipsPaymentGateway.php:191 | A final pair of octets becomes three characters that carry its 16 bits followed by two zero bits, then one `=`. |
| Base64.SingleBitLayout | src/Plugin/Commerce/PaymentGateway/MipsPaymentGateway.php:191 | A final single octet becomes two characters that carry its 8 bits followed by four zero bits, then `==`. |
| Base64.ShortTestVectors | src/Plugin/Commerce/PaymentGateway/MipsPaymentGateway.php:191 | The test vectors of section 10 of RFC 4648: "" gives "", "f" gives "Zg==", "fo" gives "Zm8=" and "foo" gives "Zm9v". |
| Base64.LongTestVectors | src/Plugin/Commerce/PaymentGateway/MipsPaymentGateway.php:191 | The test vectors of section 10 of RFC 4648: "foob" gives "Zm9vYg==", "fooba" gives "Zm9vYmE=" and "foobar" gives "Zm9vYmFy". |
| Base64.DecodeEncode | src/Plugin/Commerce/PaymentGateway/MipsPaymentGateway.php:191 | Decoding the encoding of any octet string gives the octet string back. |
| Base64.EncodeDecode | src/Plugin/Commerce/PaymentGateway/MipsPaymentGateway.php:191 | Every string the decoder accepts is the encoding of what it decodes to, so the encoding is canonical. |
| Base64.EncodeDecodeIff | src/Plugin/Commerce/PaymentGateway/MipsPaymentGateway.php:191 | `s` decodes to `b` exactly when `b` encodes to `s`. |
| Base64.EncodeInjective | src/Plugin/Commerce/PaymentGateway/MipsPaymentGateway.php:191 | Different octet strings have different encodings. |

## Left out

- HTTP transport: the Guzzle client, the 45-second timeout and the HTTP response object are abstracted to the `send` function. The POST body is `json_encode` of the request, and the model keeps the request as a structured value instead of its JSON text.
- The error logging in the `catch` block is not modelled. Its side effect is invisible to the caller. `getResponse()` is null for a failure with no HTTP response, such as a refused connection, so the log line itself would fail there. The model treats every failure as reaching the fixed connection exception.
- `create()` (dependency-injection wiring) has no behaviour beyond fetching services, which are parameters here.
- The admin form layout of `buildConfigurationForm` (field titles, `#required` flags) is presentation only.
- `onReturn` is an empty stub, so no return handling or payment-outcome classification is modelled.
- The cancel link and the prefix/suffix markup around the iframe are markup strings that carry no checked behaviour. `Markup::create` is taken as the identity on the body.
- `MipsPaymentGatewayInterface.php` only declares `getMipsCheckoutIframe`.
- The parent plugin's `defaultConfiguration` and `submitConfigurationForm` are not part of this model. Their results are parameters, or are taken as already applied.
- Configuration values that are neither strings nor null (arrays, integers, booleans) are not modelled. The form stores text fields, and `empty()` is modelled for strings and null only.
- An order without a total price is not modelled: the code would fail on a null dereference before any request is built.
- The missing space in the exception message (`id_merchantis missing from …`) is modelled as written by `PaymentForm.MissingKeyMessage`.
