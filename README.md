# mandrill_mailer, modelled in Dafny

A Dafny model of the message assembly in the Ruby gem `mandrill_mailer`.
The gem turns a mailer method's keyword arguments into the parameters of
Mandrill's send and send-template API calls. The model covers four parts:

- `ArgFormatter` (`arg_formatter.dfy`): the shared formatters and
  `format_messages_api_message_data`, the builder of the 32-key message of
  the messages API. Its formatters are `boolean`, `params`, `params_item`,
  `mandrill_args`, `merge_vars`, `rcpt_metadata`, `attachment_args` and
  `images_args`.
- `CoreMailer` (`core_mailer.dfy`): the base mailer.
  - Class-level defaults are resolved along the superclass chain
    (`defaults`, `super_defaults`, `default`, `defaults=`).
  - The instance state is message, async, ip_pool and send_at, with the
    readers `from`, `to`, `bcc` and the writer `to=`.
  - `deliver`, `mandrill_mail`, `data` and `check_required_options` raise
    `NotImplementedError`.
  - The protected formatters are modelled too.
- `TemplateMailer` (`template_mailer.dfy`): `mandrill_mail` works in place on
  the caller's argument hash.
  - It fills in blank template content and normalises `to`.
  - It takes `template`, `template_content`, `async`, `ip_pool` and
    `send_at` out of the hash into instance fields.
  - It builds the 22-key message and overlays the configured
    `interceptor_params`.
  - `data` then assembles the seven-key payload.
  - Its defaults are per class and are not inherited.
- `TransactionalMailer` (`transactional_mailer.dfy`): the legacy mailer.
  - Its `@@defaults` and `@@api_key` are class variables, shared by the
    class and every subclass.
  - `mandrill_mail` builds the four-key `@data` payload with a 14-key
    message.
  - A bare recipient gets the name "Code School Customer".
  - `mandrill_args` has no nil guard.

Two support modules:

- `Ruby` (`ruby.dfy`) models the Ruby values these methods handle.
  - A Hash is an insertion-ordered list of entries with `[]`, `[]=`,
    `delete`, `has_key?`, `fetch`, `keys` and `merge!`.
  - It also covers truthiness, `||` and ActiveSupport's `blank?`.
  - A `HashRef` class stands for a Hash that callers share by reference.
  - Symbol keys and string keys are one key domain (`args[:from]` and
    `message["from"]` both look up `Str("from")`).
  - Ruby exceptions are `Err` results.
- `Base64` (`base64.dfy`) is `Base64.encode64` as section 6.8 of RFC 2045
  writes it. It breaks a line after every 45 input bytes (60 characters) and
  ends every line with "\n". A decoder is included and proved to be its
  inverse.

State the Ruby code changes in place is modelled with classes:

- the superclass chain and the per-class `@defaults`
  (`CoreMailer.MailerClasses`, `TemplateMailer.MailerClasses`);
- the class variables (`TransactionalMailer.SharedState`);
- the mailer instances (`*.Mailer`);
- the argument hash (`Ruby.HashRef`).

Where the specification and the code differ, the model follows the code:

- In spec/template_mailer_spec.rb:139-165 the expected template message
  has the 14 keys and the four-key `data` of the transactional mailer.
  `TemplateMailer#mandrill_mail` as written builds 22 keys, and its `data`
  has seven. The model follows the code.
- The transactional mailer's documentation lists `vars` as optional. As
  written, `mandrill_args(nil)` raises, so a call without `vars` fails
  (`TransactionalMailer.MissingVarsFail`).

One case departs from that rule, and "## Findings" records it. An invalid
`merge_language` makes lib/mandrill_mailer/arg_formatter.rb:78 raise
`MandrillMailer::CoreMailer::InvalidMergeLanguageError`. No file of the gem
defines that constant: lib/mandrill_mailer/core_mailer.rb:108-110 defines only
`InvalidEmail`, `InvalidMailerMethod` and `InvalidInterceptorParams`. So, as
written, Ruby raises `NameError` there.
- `ArgFormatter.FormatMessagesApiMessageDataAsWritten` models that behaviour.
- `ArgFormatter.FormatMessagesApiMessageData` models the error that
  spec/arg_formatter_spec.rb:259 expects, and the rest of the model uses it.

## Model

| member | source | states |
|---|---|---|
| `Base64.RoundTrip` | lib/mandrill_mailer/arg_formatter.rb:16 | decoding what `Base64.encode64` writes gives back the bytes |
| `Base64.EncodeInjective` | lib/mandrill_mailer/arg_formatter.rb:16 | two byte strings with the same encoding are equal |
| `ArgFormatter.Boolean` | lib/mandrill_mailer/arg_formatter.rb:50-52 | `!!arg` is a boolean, and it is false exactly for nil and false |
| `ArgFormatter.BooleanIdempotent` | lib/mandrill_mailer/arg_formatter.rb:50-52 | coercing twice is coercing once; a boolean is kept |
| `ArgFormatter.BooleanExamples` | spec/arg_formatter_spec.rb:158-165 | example (an instance of `Boolean`'s contract): 1, "1" and true give true; nil and false give false |
| `ArgFormatter.ParamsItem` | lib/mandrill_mailer/arg_formatter.rb:66-72 | a Hash passes through; anything else becomes `{email: x, name: x}` |
| `ArgFormatter.ParamsItemWrapsBare` | lib/mandrill_mailer/arg_formatter.rb:66-72 | a bare recipient's hash has exactly the keys email and name, both the recipient |
| `ArgFormatter.Params` | lib/mandrill_mailer/arg_formatter.rb:55-63 | an Array is mapped item by item and anything else becomes a one-item list; every item is a Hash |
| `ArgFormatter.ParamsIdempotent` | lib/mandrill_mailer/arg_formatter.rb:55-72 | normalising recipients twice is normalising once |
| `ArgFormatter.ParamsKeepsHashes` | lib/mandrill_mailer/arg_formatter.rb:55-72 | a list of recipient hashes is returned unchanged |
| `ArgFormatter.ParamsOfBareAddress` | spec/arg_formatter_spec.rb:178-205 | example (an instance of `Params` and `ParamsItemWrapsBare`): one address, bare or in a list, gives `[{email: s, name: s}]` |
| `ArgFormatter.MandrillArgs` | lib/mandrill_mailer/arg_formatter.rb:26-31 | `[]` for nil or false; otherwise one name/content hash per entry, in the hash's order |
| `ArgFormatter.MandrillArgsRoundTrip` | lib/mandrill_mailer/arg_formatter.rb:26-31 | the name/content list reads back as the original hash |
| `ArgFormatter.MandrillArgsExample` | spec/arg_formatter_spec.rb:113-129 | example (an instance of `MandrillArgs`): nil gives `[]`; `{USER_NAME: bob}` gives `[{name: USER_NAME, content: bob}]` |
| `ArgFormatter.MergeVars` | lib/mandrill_mailer/arg_formatter.rb:33-39 | `[]` for nil; otherwise one `{rcpt, vars}` per item, keyed by the item's first key, with its name/content list |
| `ArgFormatter.RcptMetadata` | lib/mandrill_mailer/arg_formatter.rb:41-47 | `[]` for nil; otherwise one `{rcpt, values}` per item, keyed by the item's first key |
| `ArgFormatter.MergeVarsOfFirstEntry` | lib/mandrill_mailer/arg_formatter.rb:33-47 | each output item is built from the input item's first entry |
| `ArgFormatter.MergeVarsExample` | spec/arg_formatter_spec.rb:131-156 | example (an instance of `MergeVars` and `RcptMetadata`): nil gives `[]` for both; the spec's single-recipient case |
| `ArgFormatter.AttachmentFields` | lib/mandrill_mailer/arg_formatter.rb:7-17 | a formatted attachment has exactly type, name and content: type is mimetype else type, name is filename else name, content the truthy pre-encoded content, else the base64 of file or content |
| `ArgFormatter.AttachmentArgs` | lib/mandrill_mailer/arg_formatter.rb:7-18 | nil for a falsy list; otherwise one formatted attachment per item |
| `ArgFormatter.ImagesArgs` | lib/mandrill_mailer/arg_formatter.rb:20-23 | images are formatted exactly as attachments |
| `ArgFormatter.AttachmentContentDecodes` | lib/mandrill_mailer/arg_formatter.rb:13-16 | without pre-encoded content, the content decodes back to the raw file |
| `ArgFormatter.RawAndPreEncodedAgree` | lib/mandrill_mailer/arg_formatter.rb:13-16 | passing the encoded file under either alias gives the same attachment as the raw file |
| `ArgFormatter.PreEncodedReplacesRaw` | spec/arg_formatter_spec.rb:6-34 | replacing `file` by its base64 under `encoded_file`, or `content` under `encoded_content`, gives the same attachment, with the raw key gone |
| `ArgFormatter.AttachmentAliases` | lib/mandrill_mailer/arg_formatter.rb:11-14 | mimetype wins over type and filename over name |
| `ArgFormatter.MessageEntries` | lib/mandrill_mailer/arg_formatter.rb:81-114 | the message literal has exactly the 32 API keys, in order |
| `ArgFormatter.MessageApiKeysDistinct` | spec/arg_formatter_spec.rb:233-248 | the 32 keys are pairwise distinct |
| `ArgFormatter.FormatMessagesApiMessageData` | lib/mandrill_mailer/arg_formatter.rb:74-115 | raises `InvalidMergeLanguageError` exactly for a truthy language other than mailchimp and handlebars, whatever the other arguments; otherwise a hash with every API key |
| `ArgFormatter.MessageLookup` | lib/mandrill_mailer/arg_formatter.rb:81-114 | each key of the message holds the value its line of the literal gives |
| `ArgFormatter.MessageSender` | lib/mandrill_mailer/arg_formatter.rb:85-86 | from_email is the caller's from, else the defaults'; from_name is the caller's from_name, else the defaults' from_name, else the defaults' from |
| `ArgFormatter.FromNameIgnoresCallerFrom` | lib/mandrill_mailer/arg_formatter.rb:86 | changing only the caller's `from` never changes from_name |
| `ArgFormatter.MessageTrackingFlags` | lib/mandrill_mailer/arg_formatter.rb:90-95 | track_clicks, auto_text and url_strip_qs are true when absent and are otherwise the caller's value coerced, so an explicit nil is false; track_opens is the raw value, true when absent |
| `ArgFormatter.MessageMergeData` | lib/mandrill_mailer/arg_formatter.rb:104-111 | global_merge_vars come from vars, else global_merge_vars, else the defaults' merge_vars; merge_vars come from recipient_vars or merge_vars; recipient_metadata is passed on |
| `ArgFormatter.MessageRecipients` | lib/mandrill_mailer/arg_formatter.rb:87-103 | to is normalised by `params`; bcc and merge_language are passed on |
| `ArgFormatter.MessageFiles` | lib/mandrill_mailer/arg_formatter.rb:112-113 | attachments and images go through the attachment formatter |
| `ArgFormatter.MergeLanguageAccepted` | spec/arg_formatter_spec.rb:250-268 | example (an instance of `FormatMessagesApiMessageData`): no language, or handlebars, does not raise |
| `ArgFormatter.MergeLanguageRejected` | spec/arg_formatter_spec.rb:257-261 | example (an instance of `FormatMessagesApiMessageData`): "not_valid" raises `InvalidMergeLanguageError` |
| `ArgFormatter.FormatMessagesApiMessageDataAsWritten` | lib/mandrill_mailer/arg_formatter.rb:74-115 | as written: `NameError` exactly for an invalid language, because the error constant is undefined; otherwise the 32-key hash |
| `ArgFormatter.UndefinedMergeLanguageError` | lib/mandrill_mailer/arg_formatter.rb:77-79 | for every input, the two versions agree when the language is valid; for an invalid one, as written gives `NameError` and the intended version gives `InvalidMergeLanguageError` carrying the language |
| `ArgFormatter.UndefinedMergeLanguageErrorExample` | spec/arg_formatter_spec.rb:257-261 | the spec's "not_valid" call: as written it raises `NameError`, not the error the spec expects |
| `ArgFormatter.MergeLanguageCheckedFirst` | lib/mandrill_mailer/arg_formatter.rb:74-79 | the language is checked before any formatter runs: `{merge_language: "x", vars: "oops"}` raises `InvalidMergeLanguageError` although no formatter accepts its vars |
| `CoreMailer.Chain` | lib/mandrill_mailer/core_mailer.rb:134-140 | the superclass chain starts at the class, ends at the root, and steps from each class to its superclass |
| `CoreMailer.ResolveNearest` | lib/mandrill_mailer/core_mailer.rb:134-140 | `defaults` is nil exactly when no class on the chain declared any; otherwise it is the nearest class's own defaults |
| `CoreMailer.DeclarationIsolated` | lib/mandrill_mailer/core_mailer.rb:134-140 | declaring defaults in a class off the chain does not change what a class sees |
| `CoreMailer.ParentUnaffected` | lib/mandrill_mailer/core_mailer.rb:138-140 | a subclass's declaration never changes its ancestors' defaults |
| `CoreMailer.SiblingUnaffected` | lib/mandrill_mailer/core_mailer.rb:138-140 | a class's declaration never changes a sibling's defaults |
| `CoreMailer.SubclassAddsNothing` | lib/mandrill_mailer/core_mailer.rb:138-140 | defining a subclass changes no existing class's defaults |
| `CoreMailer.DeclareDefaultsLookup` | lib/mandrill_mailer/core_mailer.rb:142-146 | after `default(args)` the given keys hold the args; from is the earlier truthy from or "example@email.com"; other keys keep the class's own earlier values, and nothing is inherited |
| `CoreMailer.DeclareDefaultsHasKey` | lib/mandrill_mailer/core_mailer.rb:142-146 | the declared defaults hold from, the given keys and the class's own earlier keys |
| `CoreMailer.MailerClasses.Defaults` | lib/mandrill_mailer/core_mailer.rb:134-140 | nil exactly when no class on the chain declared defaults, otherwise the declaration of the nearest class that did |
| `CoreMailer.MailerClasses.DefineSubclass` | lib/mandrill_mailer/core_mailer.rb:134-140 | a new subclass sees its parent's defaults, and no other class's defaults change |
| `CoreMailer.MailerClasses.Default` | lib/mandrill_mailer/core_mailer.rb:142-146 | only the class's own `@defaults` is replaced by the declared defaults, which the class now sees |
| `CoreMailer.MailerClasses.SetDefaults` | lib/mandrill_mailer/core_mailer.rb:148-150 | `defaults=` replaces only that class's own `@defaults` |
| `CoreMailer.FormatBoolean` | lib/mandrill_mailer/core_mailer.rb:334-336 | agrees with `ArgFormatter.boolean` |
| `CoreMailer.ToParamsItem` | lib/mandrill_mailer/core_mailer.rb:350-353 | agrees with `ArgFormatter.params_item` |
| `CoreMailer.FormatToParams` | lib/mandrill_mailer/core_mailer.rb:339-347 | agrees with `ArgFormatter.params` |
| `CoreMailer.MandrillArgs` | lib/mandrill_mailer/core_mailer.rb:318-323 | agrees with `ArgFormatter.mandrill_args` |
| `CoreMailer.MandrillRcptArgs` | lib/mandrill_mailer/core_mailer.rb:325-331 | agrees with `ArgFormatter.merge_vars` |
| `CoreMailer.MandrillAttachmentArgs` | lib/mandrill_mailer/core_mailer.rb:257-266 | nil for a falsy list; otherwise each item becomes type, name and the base64 of its file, with no pre-encoded branch |
| `CoreMailer.MandrillImagesArgs` | lib/mandrill_mailer/core_mailer.rb:268-271 | images are formatted exactly as attachments |
| `CoreMailer.AttachmentContentDecodes` | lib/mandrill_mailer/core_mailer.rb:257-266 | the content decodes back to the raw file |
| `CoreMailer.AttachmentsAgreeWithArgFormatter` | lib/mandrill_mailer/core_mailer.rb:257-266 | without pre-encoded content, the result is the same as `ArgFormatter.attachment_args` |
| `CoreMailer.PreEncodedIgnored` | lib/mandrill_mailer/core_mailer.rb:257-266 | an `encoded_file` key is ignored and the raw file is still encoded |
| `CoreMailer.AttachmentSyntaxesAgree` | spec/core_mailer_spec.rb:7-43 | the file syntax and the API syntax give the same attachment |
| `CoreMailer.MessageField` | lib/mandrill_mailer/core_mailer.rb:239-253 | before a message is built the reader gives the nil message; afterwards nil for a key the message lacks, and the value the message holds for it otherwise |
| `CoreMailer.AssignTo` | lib/mandrill_mailer/core_mailer.rb:247-249 | without a message nothing changes; with one, `to` then reads the normalised recipients |
| `CoreMailer.AssignToReadsBack` | lib/mandrill_mailer/core_mailer.rb:247-249 | with a message, `to=` stores the normalised recipients and leaves every other key; without one, nothing changes |
| `CoreMailer.AssignToKeys` | lib/mandrill_mailer/core_mailer.rb:247-249 | `to=` keeps an existing to in its place and appends a missing one at the end |
| `CoreMailer.Mailer.constructor` | lib/mandrill_mailer/core_mailer.rb:113-122 | a new mailer's message, async, ip_pool and send_at are nil, so `from`, `to` and `bcc` read nil |
| `CoreMailer.Mailer.From` | lib/mandrill_mailer/core_mailer.rb:239-241 | reads the message's `from_email`: nil before a message is built, nil when it has none |
| `CoreMailer.Mailer.To` | lib/mandrill_mailer/core_mailer.rb:243-245 | reads the message's `to`: nil before a message is built, nil when it has none |
| `CoreMailer.Mailer.Bcc` | lib/mandrill_mailer/core_mailer.rb:251-253 | reads the message's `bcc_address`: nil before a message is built, nil when it has none |
| `CoreMailer.Mailer.SetTo` | lib/mandrill_mailer/core_mailer.rb:247-253 | `to=` changes only the message, and then `to` reads the normalised recipients while `from` and `bcc` are unchanged |
| `CoreMailer.Mailer.CallUnimplemented` | lib/mandrill_mailer/core_mailer.rb:203-237 | `deliver`, `mandrill_mail`, `data` and `check_required_options` each raise `NotImplementedError` naming the class and the method |
| `CoreMailer.NotImplementedNamesMethod` | lib/mandrill_mailer/core_mailer.rb:203-237 | the error message starts with the class name, and the four methods' errors all differ |
| `TemplateMailer.MailerClasses.DefineSubclass` | lib/mandrill_mailer/template_mailer.rb:116-118 | a new subclass starts with nil defaults, because nothing is inherited |
| `TemplateMailer.MailerClasses.Default` | lib/mandrill_mailer/template_mailer.rb:111-115 | only the class's `@defaults` is replaced by the declared defaults |
| `TemplateMailer.MailerClasses.SetDefaults` | lib/mandrill_mailer/template_mailer.rb:116-118 | `defaults=` replaces only that class's `@defaults` |
| `TemplateMailer.AttachmentArgs` | lib/mandrill_mailer/template_mailer.rb:317-326 | nil for a falsy list; otherwise mimetype, filename and the base64 of file for each item |
| `TemplateMailer.ImagesArgs` | lib/mandrill_mailer/template_mailer.rb:328-337 | images are formatted exactly as attachments |
| `TemplateMailer.AttachmentsAgreeWithCore` | lib/mandrill_mailer/template_mailer.rb:317-326 | with mimetype and filename given, the result is the base mailer's |
| `TemplateMailer.ApiSpellingIgnored` | lib/mandrill_mailer/template_mailer.rb:317-326 | the API spelling `type` is not read, so the type is nil |
| `TemplateMailer.AttachmentContentDecodes` | lib/mandrill_mailer/template_mailer.rb:317-326 | the content decodes back to the raw file |
| `TemplateMailer.ContentSource` | lib/mandrill_mailer/template_mailer.rb:236 | the content to convert is a Hash: `{blank: ""}` when the caller's is blank, else the caller's |
| `TemplateMailer.NormalisedFields` | lib/mandrill_mailer/template_mailer.rb:236-251 | after filling in content and normalising to, the fields are read from the caller's values |
| `TemplateMailer.TakeKeysLookup` | lib/mandrill_mailer/template_mailer.rb:242-251 | the five taken keys are gone from the hash and every other key is unchanged |
| `TemplateMailer.WithToLookup` | lib/mandrill_mailer/template_mailer.rb:236-239 | to is normalised and every key other than to and template_content is unchanged |
| `TemplateMailer.PreparedLookup` | lib/mandrill_mailer/template_mailer.rb:236-251 | after the preparation: taken keys gone, to normalised, every other key unchanged |
| `TemplateMailer.TemplateContentConverted` | lib/mandrill_mailer/template_mailer.rb:236-245 | blank content becomes `[{name: blank, content: ""}]`; otherwise the caller's content is listed |
| `TemplateMailer.MessageEntries` | lib/mandrill_mailer/template_mailer.rb:254-277 | the message literal has exactly its 22 keys, in order |
| `TemplateMailer.MessageLookup` | lib/mandrill_mailer/template_mailer.rb:254-277 | each key of the message holds the value its line of the literal gives |
| `TemplateMailer.BuildMessage` | lib/mandrill_mailer/template_mailer.rb:254-277 | `NoMethodError` exactly when a sender must be read from nil defaults, whatever the other inputs; otherwise the 22-key message |
| `TemplateMailer.MissingDefaultsRaiseFirst` | lib/mandrill_mailer/template_mailer.rb:254-277 | with nil defaults and no sender, `NoMethodError` is raised before `vars: "oops"` reaches a formatter |
| `TemplateMailer.MessageSender` | lib/mandrill_mailer/template_mailer.rb:256-257 | sender precedence: from_email, then from_name, then the defaults' from |
| `TemplateMailer.OnlyDefaultFrom` | lib/mandrill_mailer/template_mailer.rb:256-257 | with only `default from: x` and no sender in the call, both from_email and from_name are x |
| `TemplateMailer.MessageFlags` | lib/mandrill_mailer/template_mailer.rb:261-265 | track_opens, track_clicks and url_strip_qs are the caller's raw value, true when absent; auto_text is always true |
| `TemplateMailer.MessageAbsentParts` | lib/mandrill_mailer/template_mailer.rb:267-277 | with no merge data and no files: `[]`, `[]`, nil and nil |
| `TemplateMailer.MessageFormattedParts` | lib/mandrill_mailer/template_mailer.rb:266-277 | merge data, recipient data, attachments, images and bcc go through their formatters |
| `TemplateMailer.MessageMergeData` | lib/mandrill_mailer/template_mailer.rb:267-268 | global_merge_vars list vars; merge_vars come from recipient_vars |
| `TemplateMailer.MessageFiles` | lib/mandrill_mailer/template_mailer.rb:266-277 | attachments and images are formatted; bcc becomes bcc_address |
| `TemplateMailer.PreparedMessageArgs` | lib/mandrill_mailer/template_mailer.rb:236-251 | the preparation keeps the message's inputs and whether defaults are needed |
| `TemplateMailer.PreparedTo` | lib/mandrill_mailer/template_mailer.rb:239 | the prepared to is the caller's to, normalised |
| `TemplateMailer.MessageRecipients` | lib/mandrill_mailer/template_mailer.rb:239-258 | the message's to is the caller's to, normalised; a bare address s becomes `[{email: s, name: s}]` |
| `TemplateMailer.OverlayLookup` | lib/mandrill_mailer/template_mailer.rb:279-284 | a nil overlay changes nothing; an overlay key overrides; other keys are kept |
| `TemplateMailer.OverlayKeys` | lib/mandrill_mailer/template_mailer.rb:279-284 | the overlay keeps the message's keys in order and only appends |
| `TemplateMailer.DataFields` | lib/mandrill_mailer/template_mailer.rb:291-301 | `data` has exactly its seven keys, each holding the field of its name |
| `TemplateMailer.NormaliseArguments` | lib/mandrill_mailer/template_mailer.rb:236-239 | the caller's hash gets its content filled in and its to normalised |
| `TemplateMailer.MessageReaderFields` | lib/mandrill_mailer/template_mailer.rb:254-277 | in the message built from the prepared hash, `from_email` is the caller's from or the defaults', `to` the caller's to normalised, and `bcc_address` the caller's bcc |
| `TemplateMailer.MailReaders` | lib/mandrill_mailer/template_mailer.rb:233-313 | after `mandrill_mail`, `from`, `to` and `bcc` read the caller's sender (or the defaults'), normalised recipients and bcc, unless the interceptor sets that key |
| `TemplateMailer.Mailer.constructor` | lib/mandrill_mailer/template_mailer.rb:171-186 | every field starts nil, so `from`, `to` and `bcc` read nil |
| `TemplateMailer.Mailer.From` | lib/mandrill_mailer/template_mailer.rb:303-305 | reads the message's `from_email`: nil before a message is built, nil when it has none |
| `TemplateMailer.Mailer.To` | lib/mandrill_mailer/template_mailer.rb:307-309 | reads the message's `to`: nil before a message is built, nil when it has none |
| `TemplateMailer.Mailer.Bcc` | lib/mandrill_mailer/template_mailer.rb:311-313 | reads the message's `bcc_address`: nil before a message is built, nil when it has none |
| `TemplateMailer.Mailer.Data` | lib/mandrill_mailer/template_mailer.rb:291-301 | a hash of exactly the seven keys, each holding the API key or the field of its name |
| `TemplateMailer.Mailer.TakeArguments` | lib/mandrill_mailer/template_mailer.rb:242-251 | each taken key moves into its field and is removed; send_at is set only when present |
| `TemplateMailer.Mailer.MandrillMail` | lib/mandrill_mailer/template_mailer.rb:233-288 | whole new state: the prepared hash, the fields, and the message; `NoMethodError` for nil defaults and `InvalidInterceptorParams` for a non-Hash overlay; otherwise `self`, after which `from`, `to` and `bcc` read the caller's sender, recipients and bcc unless the interceptor sets them |
| `TemplateMailer.Mailer.AssembleMessage` | lib/mandrill_mailer/template_mailer.rb:254-287 | builds the message, then overlays the interceptor, and raises as `MandrillMail` does |
| `TransactionalMailer.ToParamsItem` | lib/mandrill_mailer/transactional_mailer.rb:299-302 | a Hash passes through; the result is always a Hash |
| `TransactionalMailer.BareRecipient` | lib/mandrill_mailer/transactional_mailer.rb:300 | a bare address gets exactly email (the address) and name "Code School Customer" |
| `TransactionalMailer.BareRecipientAgainstParamsItem` | lib/mandrill_mailer/transactional_mailer.rb:299-302 | same email as the other mailers' recipient, but the placeholder name instead of the address |
| `TransactionalMailer.FormatToParams` | lib/mandrill_mailer/transactional_mailer.rb:288-296 | an Array is mapped item by item and anything else becomes a one-item list; every item is a Hash |
| `TransactionalMailer.FormatToParamsIdempotent` | lib/mandrill_mailer/transactional_mailer.rb:288-302 | normalising twice is normalising once |
| `TransactionalMailer.HashRecipientsAgree` | lib/mandrill_mailer/transactional_mailer.rb:288-302 | a list of recipient hashes is kept, as `ArgFormatter.params` keeps it |
| `TransactionalMailer.Splat` | lib/mandrill_mailer/transactional_mailer.rb:282 | a pair spreads over `k, v`; a non-Array item is `k` with `v` nil |
| `TransactionalMailer.MandrillArgs` | lib/mandrill_mailer/transactional_mailer.rb:281-285 | succeeds exactly for a Hash or an Array and otherwise raises `NoMethodError`; a Hash is listed as `ArgFormatter.mandrill_args` lists it |
| `TransactionalMailer.MandrillArgsRoundTrip` | lib/mandrill_mailer/transactional_mailer.rb:281-285 | the name/content list of a Hash reads back as the Hash |
| `TransactionalMailer.PairsAsHash` | lib/mandrill_mailer/transactional_mailer.rb:281-285 | an Array of pairs is listed as the Hash of those pairs |
| `TransactionalMailer.NoNilGuard` | lib/mandrill_mailer/transactional_mailer.rb:281-285 | nil raises here, where the base mailer returns `[]` |
| `TransactionalMailer.DeclaredDefaultsLookup` | lib/mandrill_mailer/transactional_mailer.rb:74-78 | after `default(args)`: given keys hold the args; from is the earlier truthy from or "example@email.com"; other keys keep their values |
| `TransactionalMailer.ApiKeyOf` | lib/mandrill_mailer/transactional_mailer.rb:304-306 | `NameError` exactly when `@@api_key` was never assigned; a truthy key is returned; otherwise "" |
| `TransactionalMailer.SharedState.constructor` | lib/mandrill_mailer/transactional_mailer.rb:74-78 | neither class variable is assigned at first |
| `TransactionalMailer.SharedState.Default` | lib/mandrill_mailer/transactional_mailer.rb:74-78 | the one shared `@@defaults` becomes the declared defaults; the API key is untouched |
| `TransactionalMailer.SharedState.SetApiKey` | lib/mandrill_mailer/transactional_mailer.rb:135-137 | `@@api_key` is the key given, which is also returned; the defaults are untouched |
| `TransactionalMailer.SharedState.ApiKey` | lib/mandrill_mailer/transactional_mailer.rb:304-306 | `NameError` until `@@api_key` is assigned, then the key, or "" for nil or false |
| `TransactionalMailer.ApiKeySetThenRead` | lib/mandrill_mailer/transactional_mailer.rb:304-306 | after setting a truthy key, `api_key` reads it; after nil or false it reads "" |
| `TransactionalMailer.PreparedLookup` | lib/mandrill_mailer/transactional_mailer.rb:185-188 | to is normalised, blank content is replaced, and every other key is unchanged |
| `TransactionalMailer.PreparedKeeps` | lib/mandrill_mailer/transactional_mailer.rb:185-188 | keys other than to and template_content are kept |
| `TransactionalMailer.MessageEntries` | lib/mandrill_mailer/transactional_mailer.rb:193-219 | the message literal has exactly its 14 keys, in order |
| `TransactionalMailer.MessageLookup` | lib/mandrill_mailer/transactional_mailer.rb:193-219 | each key of the message holds the value its line of the literal gives |
| `TransactionalMailer.MessageSender` | lib/mandrill_mailer/transactional_mailer.rb:195-196 | from_email falls back on the defaults' from, and so does from_name |
| `TransactionalMailer.MessageFlags` | lib/mandrill_mailer/transactional_mailer.rb:199-202 | track_opens, track_clicks, auto_text and url_strip_qs are true whatever the caller passes |
| `TransactionalMailer.MessagePassThrough` | lib/mandrill_mailer/transactional_mailer.rb:194-214 | the caller's subject, to, headers, bcc (as bcc_address), tags and analytics fields are passed on |
| `TransactionalMailer.MessageOmits` | lib/mandrill_mailer/transactional_mailer.rb:204-218 | the message has no merge_vars, metadata or attachments; global_merge_vars are the converted vars |
| `TransactionalMailer.DataEntries` | lib/mandrill_mailer/transactional_mailer.rb:190-193 | `@data` has exactly the keys key, template_name, template_content and message |
| `TransactionalMailer.DataEntriesLookup` | lib/mandrill_mailer/transactional_mailer.rb:190-220 | each key of `@data` holds the value given for it |
| `TransactionalMailer.BuildData` | lib/mandrill_mailer/transactional_mailer.rb:190-220 | a built payload is a Hash with exactly the four keys |
| `TransactionalMailer.DataOutcome` | lib/mandrill_mailer/transactional_mailer.rb:185-220 | succeeds exactly when the API key is set, the content is blank or listable, no unset defaults are read and vars is listable; the first to fail picks `NameError` or `NoMethodError` |
| `TransactionalMailer.MissingVarsFail` | lib/mandrill_mailer/transactional_mailer.rb:204 | a call without vars raises `NoMethodError` even when all else is in order |
| `TransactionalMailer.BlankTemplateContent` | lib/mandrill_mailer/transactional_mailer.rb:185-192 | blank template content becomes `[{name: blank, content: ""}]` |
| `TransactionalMailer.DataFields` | lib/mandrill_mailer/transactional_mailer.rb:188-220 | a successful payload holds the API key read, the caller's template, the converted content and the message over the prepared arguments, where to is normalised |
| `TransactionalMailer.DataSender` | lib/mandrill_mailer/transactional_mailer.rb:185-196 | sender precedence in terms of the caller's own arguments |
| `TransactionalMailer.Mailer.Data` | lib/mandrill_mailer/transactional_mailer.rb:226-228 | nil before a successful `mandrill_mail`, afterwards a payload with exactly the keys key, template_name, template_content and message |
| `TransactionalMailer.Mailer.MandrillMail` | lib/mandrill_mailer/transactional_mailer.rb:182-228 | the caller's hash is prepared in place; on success `data` returns the built payload and the result is `self`; on an exception `@data` is unchanged |

## Left out

- Sending: `deliver` of the template and transactional mailers goes over the network to Mandrill. It is not modelled. `CoreMailer#deliver` raising is modelled.
- Reflection and Rails are not modelled: the class-level `method_missing` and `respond_to?` singleton emulation, the route-helper `method_missing`, `image_path`, `image_url` and `test_friendly_url`.
- `test_setup_for` and `test` are not modelled. They store and call arbitrary blocks.
- `send_at` is kept as the caller's value. Its conversion with `getutc.strftime` needs a time library.
- `api_key` of the base and template mailers reads the gem configuration. `TemplateMailer.Mailer.Data` takes it as a parameter, and the interceptor overlay is one too.
- `ArgFormatter.MandrillArgs`, `ArgFormatter.MergeVars` and the copies of them in `CoreMailer` cover Hash input only (nil or false gives `[]`). An Array of pairs is also accepted by Ruby's `map`. Only `TransactionalMailer.MandrillArgs` models that case.
- `symbolize_keys!` mutates the caller's attachment hashes in place. The model reads them as values, with symbol and string keys unified.
- Aliasing of a defaults Hash between classes (the Hash returned by `default` is the stored one) is not modelled.
- `blank?` treats ASCII whitespace as blank. Unicode whitespace is not modelled. Byte strings are characters below 256.
- Inputs that would crash the Ruby runtime are excluded by preconditions rather than modelled as errors. Examples are a String where a Hash of vars is documented, an attachment without a file, and a recipient item that is an empty Hash. Such inputs are admitted where an explicit raise comes first: `ArgFormatter.FormatMessagesApiMessageData` accepts any arguments with an invalid `merge_language`. `TemplateMailer.BuildMessage` and `TemplateMailer.Mailer.MandrillMail` accept any arguments when nil defaults must supply the sender. Exceptions raised explicitly or by reading an unset value are modelled as `Err`.
- `ArgFormatter.FormatMessagesApiMessageData` takes the defaults as a Hash. A nil defaults argument would raise on `defaults[:from]`, and that case is not modelled.
- `merge_language` is compared as a string. A Symbol would not equal the accepted Strings in Ruby, and the model does not distinguish it.

## Findings

| source | as written | input that shows it | evidently intended | confidence | as-written member | corrected member |
|---|---|---|---|---|---|---|
| lib/mandrill_mailer/arg_formatter.rb:78 | raises `MandrillMailer::CoreMailer::InvalidMergeLanguageError`, a constant that no file of the gem defines (core_mailer.rb:108-110 defines the others), so Ruby raises `NameError`; `ArgFormatter.UndefinedMergeLanguageErrorExample` exhibits it | `format_messages_api_message_data({merge_language: "not_valid"}, {})` | raise `InvalidMergeLanguageError` carrying the language, as spec/arg_formatter_spec.rb:259 expects; `ArgFormatter.UndefinedMergeLanguageError` relates the two versions on every input | not executed; medium, as a gem file outside this model could define the constant | `ArgFormatter.FormatMessagesApiMessageDataAsWritten` | `ArgFormatter.FormatMessagesApiMessageData` |
