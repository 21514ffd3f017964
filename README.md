# DigiCompanions contact form: a Dafny model

This project models the lead-capture path of the DigiCompanions marketing site. It has two parts.

- **The endpoint `POST /api/contact`.** It runs its checks in a fixed, fail-fast order:
  1. the presence of the required fields (`fullName`, `companyName`, `workEmail`, `projectBrief`, `recaptchaToken`);
  2. reCAPTCHA verification against the siteverify service;
  3. sanitation of every text field (angle brackets removed, whitespace trimmed, length capped at 1000);
  4. the minimal `local@domain.tld` shape check on the sanitized work email;
  5. composition of the HTML notification and its hand-over to the SMTP transport.
- **The client `ContactFormSection` component.** Its state is the form data, the error text, the reCAPTCHA token, and the `isSubmitting` and `isSubmitted` flags. Its handlers are the text inputs, the service checkboxes, the reCAPTCHA callback, the reset, and the two halves of `handleSubmit`: the gate before the request and the state change after it settles.

Modules:

- `Wrappers`: `Option`.
- `Text`: JavaScript's whitespace set for `String.prototype.trim` and `\s`, angle brackets, character counting, `Array.prototype.join`.
- `Sanitize`: `sanitizeInput` and its properties.
- `EmailShape`: the regular expression `^[^\s@]+@[^\s@]+\.[^\s@]+$`, defined once as a language (an existential over the positions of `@` and `.`) and once as an executable scan. A lemma proves the two are the same.
- `ContactRoute`: the request body, the presence filter, `verifyRecaptcha`, the sanitized record, the notification, and the `POST` handler as a method.
- `ContactForm`: the component, as a class whose methods update its state fields.

Two outside services are not code in this model.

- **The verification service and the mail transport.** The handler takes their answers as inputs: `Replies.siteverify` and `Replies.smtpDelivers`.
- **The environment variables.** They are also inputs: `Config`.

The handler reports, besides the response, whether a request went out to the verification service (none when the secret is unset) and which `Mail`, if any, it gave to the transport. That makes "no mail unless every check passed" a postcondition. On the client, the awaited `fetch` is an input to `CompleteSubmit`.

A parsed JSON property is a `Field`: absent, a string, or some other value with its JavaScript truthiness. This captures the following cases.

- `!body[field]` treats `""`, `0`, `false` and `null` as missing.
- Calling `sanitizeInput` on a truthy non-string value throws inside the handler's `try`, which ends in the generic 500 response.

Three consequences of the code's order are easy to miss:

- `.trim()` runs before `.substring(0, 1000)`. A sanitized value of exactly 1000 characters can therefore end in whitespace.
- Because of that order, sanitizing twice is not always the same as sanitizing once. `Sanitize.TruncationBreaksIdempotence` exhibits the input; `Sanitize.SanitizeIdempotentWhenShort` proves idempotence below the cap.
- Presence is judged on the raw value, before sanitation. A required field made only of `<`, `>` and whitespace passes presence and then sanitizes to `""`.

## Model

| member | source | states |
|---|---|---|
| Sanitize.StripBrackets | app/api/contact/route.ts:65 | `replace(/[<>]/g, '')` keeps exactly the characters of the input that are not `<` or `>`, never lengthens it, and leaves a bracket-free string unchanged |
| Sanitize.StripBracketsAppend | app/api/contact/route.ts:65 | removing brackets distributes over concatenation |
| Sanitize.TrimStart | app/api/contact/route.ts:66 | the result is a suffix of the input, everything cut is whitespace, and the result does not start with whitespace |
| Sanitize.TrimEnd | app/api/contact/route.ts:66 | the result is a prefix of the input, everything cut is whitespace, and the result does not end with whitespace |
| Sanitize.Trim | app/api/contact/route.ts:66 | the result is a contiguous slice of the input with only whitespace before and after it; neither end of the result is whitespace; the result is empty iff the input is all whitespace; an input with non-whitespace ends is returned unchanged |
| Sanitize.Cap | app/api/contact/route.ts:67 | `substring(0, 1000)` returns the first min(length, 1000) characters, the whole input below the cap, and keeps a bracket-free input bracket-free |
| Sanitize.SanitizeInput | app/api/contact/route.ts:63-68 | the result is the first min(n, 1000) characters of the bracket-stripped, trimmed input of length n; it has no angle brackets, does not start with whitespace, and (when under the cap) does not end with whitespace |
| Sanitize.SanitizeFixedPoint | app/api/contact/route.ts:63-68 | already-clean text of at most 1000 characters is returned unchanged |
| Sanitize.SanitizeIdempotentWhenShort | app/api/contact/route.ts:63-68 | sanitizing a value whose sanitized form is under the cap a second time changes nothing |
| Sanitize.SanitizeCleanLong | app/api/contact/route.ts:67 | clean text longer than 1000 characters is cut to exactly its first 1000 characters |
| Sanitize.SanitizeCleanWithTrailingSpace | app/api/contact/route.ts:66 | a single trailing whitespace character after clean short text is removed |
| Sanitize.TruncationLeavesSpace | app/api/contact/route.ts:66-67 | because trimming precedes truncation, a 999-character word followed by " b" sanitizes to the word plus a trailing space |
| Sanitize.TrailingSpaceTrimmed | app/api/contact/route.ts:66-67 | a 999-character clean word followed by one space sanitizes to the bare word |
| Sanitize.TruncationBreaksIdempotence | app/api/contact/route.ts:66-67 | for that input, sanitizing again gives a different, shorter value, so the function is not idempotent at the cap |
| Sanitize.OnlyBracketsAndSpaceSanitizeToEmpty | app/api/contact/route.ts:63-68 | input made only of angle brackets and whitespace sanitizes to the empty string |
| EmailShape.IsEmailShape | app/api/contact/route.ts:108-109 | an accepted address has at least 5 characters, no whitespace, and neither starts nor ends with `@` |
| EmailShape.EmailShapeIsPattern | app/api/contact/route.ts:108-109 | the executable shape check accepts exactly the strings matched by `^[^\s@]+@[^\s@]+\.[^\s@]+$` |
| EmailShape.ShapeMatches | app/api/contact/route.ts:108-109 | every string the shape check accepts matches the regular expression |
| EmailShape.MatchHasShape | app/api/contact/route.ts:108-109 | every match of the regular expression is accepted by the shape check |
| Text.Join | app/api/contact/route.ts:80 | `join` of no names is empty; otherwise its length is the names' total length plus one separator between each pair, it starts with the first name followed by the separator, and ends with the last name |
| Text.JoinSnoc | app/api/contact/route.ts:80 | joining one more name appends the separator and then that name, so the names appear in order with the separator between each pair |
| ContactRoute.MissingFields | app/api/contact/route.ts:75-76 | every reported name is one of the five required fields, and nothing is reported iff all five values are truthy |
| ContactRoute.MissingFieldsResponse | app/api/contact/route.ts:78-82 | status 400 with an error that starts with `Missing required fields: `; a single missing name gives exactly the prefix and that name, and each further name adds `, ` and that name at the end |
| ContactRoute.TwoMissingFieldsMessage | app/api/contact/route.ts:78-82 | two missing names `a`, `b` give exactly `Missing required fields: a, b` |
| ContactRoute.MissingAmong | app/api/contact/route.ts:76 | the filtered list holds exactly the listed names whose value is falsy, and is empty iff every listed value is truthy |
| ContactRoute.MissingFieldsInOrder | app/api/contact/route.ts:75-76 | the missing names are reported in the fixed order fullName, companyName, workEmail, projectBrief, recaptchaToken, each iff its value is falsy |
| ContactRoute.VerifyRecaptcha | app/api/contact/route.ts:16-39 | verification succeeds iff a secret is configured and the service answered with `success === true`; no answer counts as failure |
| ContactRoute.MapStrings | app/api/contact/route.ts:101-103 | mapping the services succeeds iff every element is a string, keeps the length, and applies the function element-wise |
| ContactRoute.SanitizeField | app/api/contact/route.ts:96-98 | a required field sanitizes iff it is a string (any other value throws); the result is `sanitizeInput` of that string, so clean text |
| ContactRoute.SanitizeOptional | app/api/contact/route.ts:99-100 | an optional field gives `""` when falsy, `sanitizeInput` of its text when a truthy string, and throws otherwise; the result is clean text |
| ContactRoute.SanitizeServices | app/api/contact/route.ts:101-103 | a non-array services value gives `[]`; an array sanitizes iff every element is a string, keeping its length, and each element is `sanitizeInput` of the element at the same position, so clean text |
| ContactRoute.SanitizeBody | app/api/contact/route.ts:95-105 | the sanitized record exists iff the required fields are strings, the optional ones falsy or strings and the service elements strings; optional fields default to `""`, a non-array services value to `[]`, every other field is its sanitized input |
| ContactRoute.SanitizedBodyIsClean | app/api/contact/route.ts:95-105 | every field and every service of the sanitized record is at most 1000 characters long and free of angle brackets |
| ContactRoute.ComposeBlocks | app/api/contact/route.ts:117-151 | the message opens with the title and the name, company and email lines, and closes with the brief and the footer, in 6 to 9 blocks |
| ContactRoute.ComposeBlocksParts | app/api/contact/route.ts:117-151 | each block of the message is one of the template's parts, carrying the matching sanitized value |
| ContactRoute.PhoneLineIffPhone | app/api/contact/route.ts:128 | the message has a Phone Number line iff the sanitized phone is non-empty, and that line carries it |
| ContactRoute.IndustryLineIffIndustry | app/api/contact/route.ts:129 | the message has an Industry line iff the sanitized industry is non-empty, and that line carries it |
| ContactRoute.ServiceListIffServices | app/api/contact/route.ts:132-139 | the message has a services list iff there is at least one service, and it lists exactly the sanitized services |
| ContactRoute.RenderItems | app/api/contact/route.ts:136 | the list markup is empty iff there are no services, one service gives exactly `<li>service</li>`, and every service appears as `<li>service</li>` |
| ContactRoute.RenderItemsAppend | app/api/contact/route.ts:136 | the markup of two service lists in sequence is their markups in sequence, so the items appear in order and nothing else is added |
| ContactRoute.RenderBlock | app/api/contact/route.ts:125-144 | a detail line contains its caption and value, a service list contains its list items, and a brief contains its text |
| ContactRoute.Render | app/api/contact/route.ts:117-151 | every block of the message appears in the rendered HTML |
| ContactRoute.ValuesAppearInMessage | app/api/contact/route.ts:117-151 | the rendered message carries the name, company, email and brief lines, the phone and industry lines when those are non-empty, and a list item for every service |
| ContactRoute.RenderItemsBrackets | app/api/contact/route.ts:136 | the rendered list items carry exactly as many brackets as the same items with empty values |
| ContactRoute.DetailBrackets | app/api/contact/route.ts:125-129 | a rendered detail line carries exactly the brackets of its template |
| ContactRoute.ServiceListBrackets | app/api/contact/route.ts:132-139 | the rendered service list carries exactly the brackets of its template |
| ContactRoute.BriefBrackets | app/api/contact/route.ts:141-144 | the rendered brief carries exactly the brackets of its template |
| ContactRoute.BlockBrackets | app/api/contact/route.ts:117-151 | any rendered block with clean values carries exactly the brackets of its template |
| ContactRoute.RenderBrackets | app/api/contact/route.ts:117-151 | a rendered message with clean values carries exactly the brackets of its template |
| ContactRoute.NoMarkupInjected | app/api/contact/route.ts:117-151 | for any sanitized record, the HTML message contains exactly as many `<` and `>` as the template with all values blank: submitted values cannot add markup |
| ContactRoute.Post | app/api/contact/route.ts:70-176 | checks run in the order presence, verification, sanitation, email shape; a request goes to the verification service iff the body parsed, nothing is missing and a secret is configured; a missing secret fails verification; each failure gives its own status and message; a mail to the inbox with the sanitized email as reply-to is handed over iff every check passed and the credentials are set; 200 iff that mail was delivered, otherwise the generic 500 |
| ContactRoute.PresenceBeforeSanitation | app/api/contact/route.ts:74-105 | a full name made only of brackets and whitespace passes the presence check yet sanitizes to `""` |
| ContactRoute.StripWrapped | app/api/contact/route.ts:65 | removing the brackets from `<e>` gives back a bracket-free `e` |
| ContactRoute.EmailIsTrimmed | app/api/contact/route.ts:66 | an address of the accepted shape has no surrounding whitespace, so trimming leaves it as it is |
| ContactRoute.EmailCheckedAfterSanitation | app/api/contact/route.ts:95-109 | an email wrapped in angle brackets sanitizes to the bare email, which then passes the shape check |
| ContactForm.WithInput | components/sections/ContactFormSection.tsx:47-51 | typing into a field sets that field to the typed value and leaves every other field and the services unchanged |
| ContactForm.Without | components/sections/ContactFormSection.tsx:57 | the filter removes every occurrence of the service, keeps every other one, and changes nothing when the service is absent |
| ContactForm.Toggle | components/sections/ContactFormSection.tsx:53-61 | a checkbox change flips whether the service is selected: a selected service is filtered out, an absent one is appended once, at the end; the other services stay, in order, as they were |
| ContactForm.ToggleTwiceRestores | components/sections/ContactFormSection.tsx:53-61 | ticking an unselected service and then unticking it restores the list exactly |
| ContactForm.WithoutKeepsDistinct | components/sections/ContactFormSection.tsx:57 | the filter keeps a duplicate-free list duplicate-free |
| ContactForm.ToggleKeepsWellFormed | components/sections/ContactFormSection.tsx:18-25 | toggling one of the offered services keeps the selection duplicate-free and within the offered services |
| ContactForm.TogglesStayWellFormed | components/sections/ContactFormSection.tsx:53-61 | any sequence of checkbox changes keeps the selection duplicate-free and within the offered services |
| ContactForm.ToRequest | components/sections/ContactFormSection.tsx:101-104 | the posted body carries every form field under its own key as a string, the token as `recaptchaToken`, and the services as an array of the selected names |
| ContactForm.FailureMessage | components/sections/ContactFormSection.tsx:109-123 | a failed request shows the server's error, or `Something went wrong` when it sent none, or the thrown error's message |
| ContactForm.ClientGateMatchesServerPresence | components/sections/ContactFormSection.tsx:82-91 | the form lets a submission through iff the endpoint's presence check finds no missing field in the body it posts |
| ContactForm.ContactFormState.constructor | components/sections/ContactFormSection.tsx:30-43 | the component starts with an empty form, no error, no token, and is neither submitting nor submitted |
| ContactForm.ContactFormState.HandleInputChange | components/sections/ContactFormSection.tsx:47-51 | the named field takes the value, the error is cleared, nothing else changes |
| ContactForm.ContactFormState.HandleServiceChange | components/sections/ContactFormSection.tsx:53-61 | the services are toggled and stay well formed, the error is cleared, nothing else changes |
| ContactForm.ContactFormState.HandleRecaptchaChange | components/sections/ContactFormSection.tsx:323 | the token becomes the widget's token, or `""` when it expired; nothing else changes |
| ContactForm.ContactFormState.ResetForm | components/sections/ContactFormSection.tsx:63-76 | the form is emptied and the token cleared; error and flags are kept |
| ContactForm.ContactFormState.HandleSubmit | components/sections/ContactFormSection.tsx:78-105 | the error is cleared; an empty required field is reported before a missing token; a request with the form and token is issued, and submitting starts, iff both checks pass; the form itself is untouched |
| ContactForm.ContactFormState.CompleteSubmit | components/sections/ContactFormSection.tsx:107-126 | an ok response marks the form submitted and resets it; any other outcome shows the failure message and keeps the form; submitting always ends |
| ContactForm.ContactFormState.SuccessTimerFires | components/sections/ContactFormSection.tsx:116-119 | the confirmation is hidden again; nothing else changes |

## Left out

- The network requests themselves (siteverify, `fetch('/api/contact')`) and the SMTP connection. Their outcomes are inputs (`Replies`, `FetchOutcome`), because the model cannot perform I/O.
- JSON parsing of the request body. A body that fails to parse, or parses to `null` (reading a property of `null` throws), is `None` and yields the generic 500. Any other parsed value that is not an object reads as all fields absent.
- The `Submitted at` timestamp in the footer. It depends on the clock and on locale formatting.
- The HTML template's outer wrapper `div`, the contact-section `div` with its `Contact Information` heading, the styling attributes and the whitespace. `Render` keeps the blocks (title, detail lines, service list, brief, footer) and their values.
- `console.error` logging.
- The 5-second delay before the confirmation is hidden. Only its effect, `SuccessTimerFires`, is modelled.
- `recaptchaRef.current?.reset()` in `resetForm`. The widget's internal state is not modelled; the token is cleared.
- The submit button's `disabled={isSubmitting || !recaptchaToken}` (components/sections/ContactFormSection.tsx:333). `HandleSubmit` may run in any state, which over-approximates the form: its missing-token branch cannot be reached through the UI.
- The non-`Error` branch of the client's catch (`Something went wrong. Please try again.`). `fetch` and `response.json()` reject only with `Error` objects, so the model has no such outcome.
- Characters are Unicode code points, not UTF-16 code units. Truncation at 1000 therefore never splits a surrogate pair, unlike `.substring`.
- `createTransport`'s host, port and TLS settings. Only the credential check that precedes them is modelled.
- The presentational sections (hero, metrics, services, testimonials, CTA buttons, navigation) and the page layout. They hold no logic of the contact path.
