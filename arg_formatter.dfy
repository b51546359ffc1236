/**
  `MandrillMailer::ArgFormatter`: the class methods that turn loosely typed
  mailer arguments into the shapes the Mandrill messages API expects, and the
  builder of the full message hash of the messages API.
 */
module ArgFormatter {
  import opened Ruby
  import opened Base64

  /** `ACCEPTED_MERGE_LANGUAGES` */
  const AcceptedMergeLanguages: seq<Value> := [Str("mailchimp"), Str("handlebars")]

  // ---------------------------------------------------------------------------
  // boolean, params_item, params

  /** `boolean(arg)`, Ruby's `!!arg`. */
  function Boolean(v: Value): (r: Value)
    ensures r.Bool?
    ensures r == Bool(false) <==> v == Nil || v == Bool(false)
  {
    Bool(Truthy(v))
  }

  /** Coercing twice is coercing once, and a Ruby boolean is left as it is. */
  lemma BooleanIdempotent(v: Value)
    ensures Boolean(Boolean(v)) == Boolean(v)
    ensures v.Bool? ==> Boolean(v) == v
  {
  }

  /** The values the source's own examples coerce. */
  lemma BooleanExamples()
    ensures Boolean(Int(1)) == Bool(true)
    ensures Boolean(Str("1")) == Bool(true)
    ensures Boolean(Nil) == Bool(false)
    ensures Boolean(Bool(false)) == Bool(false)
    ensures Boolean(Bool(true)) == Bool(true)
  {
  }

  /** The recipient hash Mandrill expects for an address given on its own. */
  function EmailAndName(email: Value, name: Value): Value {
    Hash([Entry(Str("email"), email), Entry(Str("name"), name)])
  }

  /** `params_item(item)`: a Hash is already a recipient, anything else is both its email and its name. */
  function ParamsItem(item: Value): (r: Value)
    ensures r.Hash?
    ensures item.Hash? ==> r == item
    ensures !item.Hash? ==> r == EmailAndName(item, item)
  {
    if item.Hash? then item else EmailAndName(item, item)
  }

  /** A bare recipient `x` becomes the hash with exactly the keys email and name, both `x`. */
  lemma ParamsItemWrapsBare(item: Value)
    requires !item.Hash?
    ensures var r := ParamsItem(item).entries;
      Keys(r) == [Str("email"), Str("name")] && At(r, "email") == item && At(r, "name") == item
  {
    LookupPair(Str("email"), item, Str("name"), item);
  }

  /** Every element of the list is a recipient hash. */
  predicate RecipientHashes(items: seq<Value>) {
    forall i :: 0 <= i < |items| ==> items[i].Hash?
  }

  /** `params(to_params)`: an Array is formatted element by element, anything else becomes a one-element Array. */
  function Params(to: Value): (r: Value)
    ensures r.Arr? && RecipientHashes(r.items)
    ensures to.Arr? ==>
      |r.items| == |to.items| &&
      forall i :: 0 <= i < |to.items| ==> r.items[i] == ParamsItem(to.items[i])
    ensures !to.Arr? ==> r.items == [ParamsItem(to)]
  {
    if to.Arr? then Arr(seq(|to.items|, i requires 0 <= i < |to.items| => ParamsItem(to.items[i])))
    else Arr([ParamsItem(to)])
  }

  /** Formatting recipients that are already formatted changes nothing. */
  lemma ParamsIdempotent(to: Value)
    ensures Params(Params(to)) == Params(to)
  {
    var once := Params(to);
    assert Params(once).items == once.items;
  }

  /** `params` of a recipient list that is already made of hashes is that list. */
  lemma ParamsKeepsHashes(items: seq<Value>)
    requires RecipientHashes(items)
    ensures Params(Arr(items)) == Arr(items)
  {
    assert Params(Arr(items)).items == items;
  }

  /** The source's examples: one address, given bare or in an Array. */
  lemma ParamsOfBareAddress(email: string)
    ensures Params(Str(email)) == Arr([EmailAndName(Str(email), Str(email))])
    ensures Params(Arr([Str(email)])) == Arr([EmailAndName(Str(email), Str(email))])
  {
    assert Params(Arr([Str(email)])).items == [EmailAndName(Str(email), Str(email))];
  }

  // ---------------------------------------------------------------------------
  // mandrill_args, merge_vars, rcpt_metadata

  /** The `{'name' => k, 'content' => v}` hash of one variable. */
  function NameContent(k: Value, v: Value): Value {
    Hash([Entry(Str("name"), k), Entry(Str("content"), v)])
  }

  /** What `mandrill_args` can be given: nothing (nil or false) or a Hash. */
  predicate MapArg(v: Value) {
    !Truthy(v) || v.Hash?
  }

  /** `mandrill_args(args)`: `[]` for nil, else one name/content hash per entry, in the hash's order. */
  function MandrillArgs(v: Value): (r: Value)
    requires MapArg(v)
    ensures r.Arr?
    ensures !Truthy(v) ==> r.items == []
    ensures v.Hash? ==>
      |r.items| == |v.entries| &&
      forall i :: 0 <= i < |v.entries| ==> r.items[i] == NameContent(v.entries[i].key, v.entries[i].val)
  {
    if !Truthy(v) then Arr([])
    else Arr(seq(|v.entries|, i requires 0 <= i < |v.entries| => NameContent(v.entries[i].key, v.entries[i].val)))
  }

  /** Reads a list of name/content hashes back into a hash. */
  function Unpair(items: seq<Value>): seq<Entry>
    requires RecipientHashes(items)
  {
    seq(|items|, i requires 0 <= i < |items| => Entry(At(items[i].entries, "name"), At(items[i].entries, "content")))
  }

  /** `mandrill_args` loses nothing: the name/content list reads back as the original hash. */
  lemma MandrillArgsRoundTrip(h: seq<Entry>)
    ensures RecipientHashes(MandrillArgs(Hash(h)).items)
    ensures Unpair(MandrillArgs(Hash(h)).items) == h
  {
    var r := MandrillArgs(Hash(h)).items;
    forall i | 0 <= i < |h| ensures Unpair(r)[i] == h[i] {
      assert r[i] == NameContent(h[i].key, h[i].val);
      LookupPair(Str("name"), h[i].key, Str("content"), h[i].val);
    }
  }

  /** The source's example: `{'USER_NAME' => 'bob'}`. */
  lemma MandrillArgsExample()
    ensures MandrillArgs(Nil) == Arr([])
    ensures MandrillArgs(Hash([Entry(Str("USER_NAME"), Str("bob"))])) == Arr([NameContent(Str("USER_NAME"), Str("bob"))])
  {
    assert MandrillArgs(Hash([Entry(Str("USER_NAME"), Str("bob"))])).items == [NameContent(Str("USER_NAME"), Str("bob"))];
  }

  /** What `rcpt_metadata` can be given: nothing, or an Array of non-empty hashes keyed by recipient. */
  predicate RecipientItems(v: Value) {
    !Truthy(v) ||
    (v.Arr? && forall i :: 0 <= i < |v.items| ==> v.items[i].Hash? && |v.items[i].entries| > 0)
  }

  /** What `merge_vars` can be given: as for `rcpt_metadata`, and every recipient's variables form a map. */
  predicate MergeVarsArg(v: Value) {
    RecipientItems(v) &&
    (v.Arr? ==> forall i :: 0 <= i < |v.items| ==> MapArg(v.items[i].entries[0].val))
  }

  /** `item.keys[0]`. */
  function FirstKey(item: Value): Value
    requires item.Hash? && |item.entries| > 0
  {
    Keys(item.entries)[0]
  }

  /** The output hash of `merge_vars` or `rcpt_metadata` for one item. */
  function RcptHash(rcpt: Value, field: string, content: Value): Value {
    Hash([Entry(Str("rcpt"), rcpt), Entry(Str(field), content)])
  }

  /** `merge_vars(args)`: `[]` for nil, otherwise one `{rcpt, vars}` per item with the item's first key as recipient. */
  function MergeVars(v: Value): (r: Value)
    requires MergeVarsArg(v)
    ensures r.Arr?
    ensures !Truthy(v) ==> r.items == []
    ensures Truthy(v) ==>
      |r.items| == |v.items| &&
      forall i :: 0 <= i < |v.items| ==>
        var rcpt := FirstKey(v.items[i]);
        MapArg(Lookup(v.items[i].entries, rcpt)) &&
        r.items[i] == RcptHash(rcpt, "vars", MandrillArgs(Lookup(v.items[i].entries, rcpt)))
  {
    if !Truthy(v) then Arr([])
    else Arr(seq(|v.items|, i requires 0 <= i < |v.items| =>
      var rcpt := FirstKey(v.items[i]);
      RcptHash(rcpt, "vars", MandrillArgs(Lookup(v.items[i].entries, rcpt)))))
  }

  /** `rcpt_metadata(args)`: like `merge_vars`, but the recipient's value is passed on as it is. */
  function RcptMetadata(v: Value): (r: Value)
    requires RecipientItems(v)
    ensures r.Arr?
    ensures !Truthy(v) ==> r.items == []
    ensures Truthy(v) ==>
      |r.items| == |v.items| &&
      forall i :: 0 <= i < |v.items| ==>
        r.items[i] == RcptHash(FirstKey(v.items[i]), "values", Lookup(v.items[i].entries, FirstKey(v.items[i])))
  {
    if !Truthy(v) then Arr([])
    else Arr(seq(|v.items|, i requires 0 <= i < |v.items| =>
      var rcpt := FirstKey(v.items[i]);
      RcptHash(rcpt, "values", Lookup(v.items[i].entries, rcpt))))
  }

  /** The value under a recipient's first key is the first entry's value, so `vars` converts exactly that. */
  lemma MergeVarsOfFirstEntry(v: Value, i: nat)
    requires MergeVarsArg(v) && v.Arr? && i < |v.items|
    ensures MergeVars(v).items[i] ==
      RcptHash(v.items[i].entries[0].key, "vars", MandrillArgs(v.items[i].entries[0].val))
    ensures RcptMetadata(v).items[i] ==
      RcptHash(v.items[i].entries[0].key, "values", v.items[i].entries[0].val)
  {
  }

  /** The source's example: `[{rcpt => {'USER_NAME' => 'bob'}}]`. */
  lemma MergeVarsExample(rcpt: string)
    ensures MergeVars(Nil) == Arr([]) && RcptMetadata(Nil) == Arr([])
    ensures
      var vars := Hash([Entry(Str("USER_NAME"), Str("bob"))]);
      MergeVars(Arr([Hash([Entry(Str(rcpt), vars)])])) ==
      Arr([RcptHash(Str(rcpt), "vars", Arr([NameContent(Str("USER_NAME"), Str("bob"))]))])
  {
    var vars := Hash([Entry(Str("USER_NAME"), Str("bob"))]);
    var v := Arr([Hash([Entry(Str(rcpt), vars)])]);
    MandrillArgsExample();
    assert MergeVars(v).items == [RcptHash(Str(rcpt), "vars", Arr([NameContent(Str("USER_NAME"), Str("bob"))]))];
  }

  // ---------------------------------------------------------------------------
  // attachment_args, images_args

  /** `attachment[:mimetype] || attachment[:type]` */
  function AttachmentType(e: seq<Entry>): Value {
    Or(At(e, "mimetype"), At(e, "type"))
  }

  /** `attachment[:filename] || attachment[:name]` */
  function AttachmentName(e: seq<Entry>): Value {
    Or(At(e, "filename"), At(e, "name"))
  }

  /** `attachment[:file] || attachment[:content]`: the raw bytes. */
  function RawContent(e: seq<Entry>): Value {
    Or(At(e, "file"), At(e, "content"))
  }

  /** `attachment[:encoded_file] || attachment[:encoded_content]`: content the caller has already encoded. */
  function EncodedContent(e: seq<Entry>): Value {
    Or(At(e, "encoded_file"), At(e, "encoded_content"))
  }

  /** The `{type, name, content}` hash Mandrill expects for a file. */
  function TypeNameContent(t: Value, n: Value, c: Value): Value {
    Hash([Entry(Str("type"), t), Entry(Str("name"), n), Entry(Str("content"), c)])
  }

  /** An attachment the formatter can handle: a Hash with pre-encoded content or a byte string to encode. */
  predicate AttachmentSpec(a: Value) {
    a.Hash? &&
    (Truthy(EncodedContent(a.entries)) ||
     (RawContent(a.entries).Str? && IsByteString(RawContent(a.entries).s)))
  }

  /** What `attachment_args` can be given: nothing, or an Array of attachments. */
  predicate AttachmentList(v: Value) {
    !Truthy(v) || (v.Arr? && forall i :: 0 <= i < |v.items| ==> AttachmentSpec(v.items[i]))
  }

  /** What `attachment_args` sends as the content of one attachment. */
  function AttachmentContent(e: seq<Entry>): Value
    requires AttachmentSpec(Hash(e))
  {
    var encoded := EncodedContent(e);
    if Truthy(encoded) then encoded else Str(Encode64(BytesOf(RawContent(e).s)))
  }

  /** The block of `attachment_args` for one attachment. */
  function FormatAttachment(a: Value): Value
    requires AttachmentSpec(a)
  {
    TypeNameContent(AttachmentType(a.entries), AttachmentName(a.entries), AttachmentContent(a.entries))
  }

  /**
    A formatted attachment has exactly the keys type, name and content: type is
    `mimetype` or else `type`, name is `filename` or else `name`, and content is
    the pre-encoded content when there is some and otherwise the base64 of the file.
   */
  lemma AttachmentFields(a: Value)
    requires AttachmentSpec(a)
    ensures var r := FormatAttachment(a).entries;
      Keys(r) == [Str("type"), Str("name"), Str("content")] &&
      At(r, "type") == Or(At(a.entries, "mimetype"), At(a.entries, "type")) &&
      At(r, "name") == Or(At(a.entries, "filename"), At(a.entries, "name")) &&
      (Truthy(EncodedContent(a.entries)) ==> At(r, "content") == EncodedContent(a.entries)) &&
      (!Truthy(EncodedContent(a.entries)) ==>
        At(r, "content") == Str(Encode64(BytesOf(Or(At(a.entries, "file"), At(a.entries, "content")).s))))
  {
    LookupTriple(Str("type"), AttachmentType(a.entries), Str("name"), AttachmentName(a.entries),
                 Str("content"), AttachmentContent(a.entries));
  }

  /** `attachment_args(args)`: nil for nil; otherwise one formatted attachment per input, in order. */
  function AttachmentArgs(v: Value): (r: Value)
    requires AttachmentList(v)
    ensures !Truthy(v) ==> r == Nil
    ensures Truthy(v) ==>
      r.Arr? && |r.items| == |v.items| &&
      forall i :: 0 <= i < |v.items| ==> r.items[i] == FormatAttachment(v.items[i])
  {
    if !Truthy(v) then Nil
    else Arr(seq(|v.items|, i requires 0 <= i < |v.items| => FormatAttachment(v.items[i])))
  }

  /** `images_args(args)` */
  function ImagesArgs(v: Value): (r: Value)
    requires AttachmentList(v)
    ensures r == AttachmentArgs(v)
  {
    if !Truthy(v) then Nil else AttachmentArgs(v)
  }

  /** The content of an attachment given as raw bytes decodes back to those bytes. */
  lemma AttachmentContentDecodes(a: Value)
    requires AttachmentSpec(a) && !Truthy(EncodedContent(a.entries))
    ensures var c := At(FormatAttachment(a).entries, "content");
      c.Str? && Decode64(c.s) == BytesOf(RawContent(a.entries).s)
  {
    AttachmentFields(a);
    RoundTrip(BytesOf(RawContent(a.entries).s));
  }

  /**
    Handing over the bytes B, or `encode64(B)` as pre-encoded content, gives the
    same attachment: the pre-encoded alias is added to a hash that has none.
   */
  lemma RawAndPreEncodedAgree(e: seq<Entry>, alias: string)
    requires alias == "encoded_file" || alias == "encoded_content"
    requires AttachmentSpec(Hash(e)) && !Truthy(EncodedContent(e))
    ensures var pre := Store(e, Str(alias), Str(Encode64(BytesOf(RawContent(e).s))));
      AttachmentSpec(Hash(pre)) && FormatAttachment(Hash(pre)) == FormatAttachment(Hash(e))
  {
    var encoded := Str(Encode64(BytesOf(RawContent(e).s)));
    var pre := Store(e, Str(alias), encoded);
    StoreLookup(e, Str(alias), encoded, Str("mimetype"));
    StoreLookup(e, Str(alias), encoded, Str("type"));
    StoreLookup(e, Str(alias), encoded, Str("filename"));
    StoreLookup(e, Str(alias), encoded, Str("name"));
    StoreLookup(e, Str(alias), encoded, Str("encoded_file"));
    StoreLookup(e, Str(alias), encoded, Str(alias));
    assert EncodedContent(pre) == encoded;
  }

  /**
    The spec's encoded variants: replacing the raw `file` (or `content`) by
    its base64 under `encoded_file` (or `encoded_content`) gives the same attachment.
   */
  lemma PreEncodedReplacesRaw(e: seq<Entry>, raw: string, alias: string)
    requires (raw == "file" && alias == "encoded_file") || (raw == "content" && alias == "encoded_content")
    requires AttachmentSpec(Hash(e)) && !Truthy(EncodedContent(e))
    ensures var pre := Store(Delete(e, Str(raw)), Str(alias), Str(Encode64(BytesOf(RawContent(e).s))));
      !HasKey(pre, Str(raw)) && AttachmentSpec(Hash(pre)) && FormatAttachment(Hash(pre)) == FormatAttachment(Hash(e))
  {
    var encoded := Str(Encode64(BytesOf(RawContent(e).s)));
    var d := Delete(e, Str(raw));
    var pre := Store(d, Str(alias), encoded);
    DeleteLookup(e, Str(raw), Str("mimetype"));
    DeleteLookup(e, Str(raw), Str("type"));
    DeleteLookup(e, Str(raw), Str("filename"));
    DeleteLookup(e, Str(raw), Str("name"));
    DeleteLookup(e, Str(raw), Str("encoded_file"));
    DeleteHasKey(e, Str(raw), Str(raw));
    StoreLookup(d, Str(alias), encoded, Str("mimetype"));
    StoreLookup(d, Str(alias), encoded, Str("type"));
    StoreLookup(d, Str(alias), encoded, Str("filename"));
    StoreLookup(d, Str(alias), encoded, Str("name"));
    StoreLookup(d, Str(alias), encoded, Str("encoded_file"));
    StoreLookup(d, Str(alias), encoded, Str(alias));
    StoreHasKey(d, Str(alias), encoded, Str(raw));
    assert EncodedContent(pre) == encoded;
  }

  /** The aliases: `mimetype` is preferred to `type` and `filename` to `name`. */
  lemma AttachmentAliases(t: Value, n: Value, t': Value, n': Value, c: Value)
    requires Truthy(t) && Truthy(n) && Truthy(c)
    ensures var a := Hash([Entry(Str("mimetype"), t), Entry(Str("type"), t'), Entry(Str("filename"), n),
                           Entry(Str("name"), n'), Entry(Str("encoded_content"), c)]);
      AttachmentSpec(a) && FormatAttachment(a) == TypeNameContent(t, n, c)
  {
    var e := [Entry(Str("mimetype"), t), Entry(Str("type"), t'), Entry(Str("filename"), n),
              Entry(Str("name"), n'), Entry(Str("encoded_content"), c)];
    LookupFirst(e, 0);
    LookupFirst(e, 2);
    LookupFirst(e, 4);
    LookupMissing(e, Str("encoded_file"));
    assert AttachmentContent(e) == c;
  }

  // ---------------------------------------------------------------------------
  // format_messages_api_message_data

  /** The keys of the messages API message, in the order the builder writes them. */
  const MessageApiKeys: seq<Value> := [
    Str("html"), Str("text"), Str("subject"), Str("from_email"), Str("from_name"), Str("to"),
    Str("headers"), Str("important"), Str("track_opens"), Str("track_clicks"), Str("auto_text"),
    Str("auto_html"), Str("inline_css"), Str("url_strip_qs"), Str("preserve_recipients"),
    Str("view_content_link"), Str("bcc_address"), Str("tracking_domain"), Str("signing_domain"),
    Str("return_path_domain"), Str("merge"), Str("merge_language"), Str("global_merge_vars"),
    Str("merge_vars"), Str("tags"), Str("subaccount"), Str("google_analytics_domains"),
    Str("google_analytics_campaign"), Str("metadata"), Str("recipient_metadata"),
    Str("attachments"), Str("images")]

  /** The global merge variables: `vars`, else `global_merge_vars`, else the defaults' `merge_vars`. */
  function GlobalVarsSource(args: seq<Entry>, defaults: seq<Entry>): Value {
    Or(Or(At(args, "vars"), At(args, "global_merge_vars")), At(defaults, "merge_vars"))
  }

  /** The per-recipient merge variables: `recipient_vars`, else `merge_vars`. */
  function RecipientVarsSource(args: seq<Entry>): Value {
    Or(At(args, "recipient_vars"), At(args, "merge_vars"))
  }

  /** The argument shapes the builder's formatters can handle. */
  predicate MessageArgs(args: seq<Entry>, defaults: seq<Entry>) {
    MapArg(GlobalVarsSource(args, defaults)) &&
    MergeVarsArg(RecipientVarsSource(args)) &&
    AttachmentList(At(args, "attachments")) &&
    AttachmentList(At(args, "images"))
  }

  /** The value the builder's hash literal gives `key`; a key it does not list is absent (nil). */
  function MessageValue(args: seq<Entry>, defaults: seq<Entry>, key: string): Value
    requires MessageArgs(args, defaults)
  {
    match key
    case "html" => At(args, "html")
    case "text" => At(args, "text")
    case "subject" => At(args, "subject")
    case "from_email" => Or(At(args, "from"), At(defaults, "from"))
    case "from_name" => Or(Or(At(args, "from_name"), At(defaults, "from_name")), At(defaults, "from"))
    case "to" => Params(At(args, "to"))
    case "headers" => At(args, "headers")
    case "important" => Boolean(At(args, "important"))
    case "track_opens" => Fetch(args, Str("track_opens"), Bool(true))
    case "track_clicks" => Boolean(Fetch(args, Str("track_clicks"), Bool(true)))
    case "auto_text" => Boolean(Fetch(args, Str("auto_text"), Bool(true)))
    case "auto_html" => Boolean(At(args, "auto_html"))
    case "inline_css" => Boolean(At(args, "inline_css"))
    case "url_strip_qs" => Boolean(Fetch(args, Str("url_strip_qs"), Bool(true)))
    case "preserve_recipients" => Boolean(At(args, "preserve_recipients"))
    case "view_content_link" => Boolean(Or(At(args, "view_content_link"), At(defaults, "view_content_link")))
    case "bcc_address" => At(args, "bcc")
    case "tracking_domain" => At(args, "tracking_domain")
    case "signing_domain" => At(args, "signing_domain")
    case "return_path_domain" => At(args, "return_path_domain")
    case "merge" => Boolean(At(args, "merge"))
    case "merge_language" => At(args, "merge_language")
    case "global_merge_vars" => MandrillArgs(GlobalVarsSource(args, defaults))
    case "merge_vars" => MergeVars(RecipientVarsSource(args))
    case "tags" => At(args, "tags")
    case "subaccount" => At(args, "subaccount")
    case "google_analytics_domains" => At(args, "google_analytics_domains")
    case "google_analytics_campaign" => At(args, "google_analytics_campaign")
    case "metadata" => At(args, "metadata")
    case "recipient_metadata" => At(args, "recipient_metadata")
    case "attachments" => AttachmentArgs(At(args, "attachments"))
    case "images" => ImagesArgs(At(args, "images"))
    case _ => Nil
  }

  /** The hash literal the builder returns: every key of `MessageApiKeys`, in order, with its value. */
  function MessageEntries(args: seq<Entry>, defaults: seq<Entry>): (m: seq<Entry>)
    requires MessageArgs(args, defaults)
    ensures Keys(m) == MessageApiKeys
  {
    seq(|MessageApiKeys|, i requires 0 <= i < |MessageApiKeys| =>
      Entry(MessageApiKeys[i], MessageValue(args, defaults, MessageApiKeys[i].s)))
  }

  /** The 32 keys are pairwise distinct (shown half by half, to keep each comparison set small). */
  lemma MessageApiKeysDistinct()
    ensures Distinct(MessageApiKeys)
  {
    KeysDistinctFirstHalf();
    KeysDistinctSecondHalf();
    KeysDistinctAcross();
  }

  lemma KeysDistinctFirstHalf()
    ensures forall i, j :: 0 <= i < j < 16 ==> MessageApiKeys[i] != MessageApiKeys[j]
  {
  }

  lemma KeysDistinctSecondHalf()
    ensures forall i, j :: 16 <= i < j < 32 ==> MessageApiKeys[i] != MessageApiKeys[j]
  {
  }

  lemma KeysDistinctAcross()
    ensures forall i, j :: 0 <= i < 16 <= j < 32 ==> MessageApiKeys[i] != MessageApiKeys[j]
  {
  }

  /** A truthy `merge_language` that is not accepted. */
  predicate InvalidMergeLanguage(args: seq<Entry>) {
    Truthy(At(args, "merge_language")) && At(args, "merge_language") !in AcceptedMergeLanguages
  }

  /**
    `format_messages_api_message_data(args, defaults)`: raises
    `InvalidMergeLanguageError` for a `merge_language` outside the accepted ones,
    and otherwise returns a hash holding every key of the messages API.
   */
  function FormatMessagesApiMessageData(args: seq<Entry>, defaults: seq<Entry>): (r: Result<Value>)
    requires InvalidMergeLanguage(args) || MessageArgs(args, defaults)
    ensures r.Err? <==> InvalidMergeLanguage(args)
    ensures r.Err? ==> r.error == InvalidMergeLanguageError(At(args, "merge_language"))
    ensures r.Ok? ==> r.value.Hash? && Keys(r.value.entries) == MessageApiKeys
  {
    if InvalidMergeLanguage(args) then Err(InvalidMergeLanguageError(At(args, "merge_language")))
    else Ok(Hash(MessageEntries(args, defaults)))
  }

  /**
    `format_messages_api_message_data` as written: the raise names
    `CoreMailer::InvalidMergeLanguageError`, a constant no file of the gem
    defines, so an invalid language ends in Ruby's `NameError` instead.
   */
  function FormatMessagesApiMessageDataAsWritten(args: seq<Entry>, defaults: seq<Entry>): (r: Result<Value>)
    requires InvalidMergeLanguage(args) || MessageArgs(args, defaults)
    ensures r.Err? <==> InvalidMergeLanguage(args)
    ensures r.Err? ==> r.error == NameError
    ensures r.Ok? ==> r.value.Hash? && Keys(r.value.entries) == MessageApiKeys
  {
    if InvalidMergeLanguage(args) then Err(NameError)
    else Ok(Hash(MessageEntries(args, defaults)))
  }

  /**
    The two agree on every valid call and differ on every invalid language:
    as written the error is `NameError`, where the intended error names the language.
   */
  lemma UndefinedMergeLanguageError(args: seq<Entry>, defaults: seq<Entry>)
    requires InvalidMergeLanguage(args) || MessageArgs(args, defaults)
    ensures !InvalidMergeLanguage(args) ==>
      FormatMessagesApiMessageDataAsWritten(args, defaults) == FormatMessagesApiMessageData(args, defaults)
    ensures InvalidMergeLanguage(args) ==>
      FormatMessagesApiMessageDataAsWritten(args, defaults) == Err(NameError) &&
      FormatMessagesApiMessageData(args, defaults) == Err(InvalidMergeLanguageError(At(args, "merge_language")))
  {
  }

  /** The spec's "not_valid" case: as written it raises `NameError`, not the expected error. */
  lemma UndefinedMergeLanguageErrorExample()
    ensures var a := [Entry(Str("merge_language"), Str("not_valid"))];
      FormatMessagesApiMessageDataAsWritten(a, []) == Err(NameError) &&
      FormatMessagesApiMessageData(a, []) == Err(InvalidMergeLanguageError(Str("not_valid")))
  {
    var a := [Entry(Str("merge_language"), Str("not_valid"))];
    assert At(a, "merge_language") == Str("not_valid");
  }

  /** Looking a key up in the built message finds the value the literal gives it. */
  lemma MessageLookup(args: seq<Entry>, defaults: seq<Entry>, key: string)
    requires MessageArgs(args, defaults)
    ensures At(MessageEntries(args, defaults), key) == MessageValue(args, defaults, key)
  {
    var m := MessageEntries(args, defaults);
    if HasKey(m, Str(key)) {
      var i :| 0 <= i < |m| && m[i].key == Str(key);
      MessageEntryLookup(args, defaults, i);
    } else {
      LookupMissing(m, Str(key));
      assert Str(key) !in MessageApiKeys by {
        forall i | 0 <= i < |MessageApiKeys| ensures MessageApiKeys[i] != Str(key) {
          assert m[i].key == Keys(m)[i];
        }
      }
      MessageValueMissing(args, defaults, key);
    }
  }

  /** A key the literal does not list is absent. */
  lemma MessageValueMissing(args: seq<Entry>, defaults: seq<Entry>, key: string)
    requires MessageArgs(args, defaults) && Str(key) !in MessageApiKeys
    ensures MessageValue(args, defaults, key) == Nil
  {
  }

  /** The entry at position `i` is the one a lookup of its key finds. */
  lemma MessageEntryLookup(args: seq<Entry>, defaults: seq<Entry>, i: nat)
    requires MessageArgs(args, defaults) && i < |MessageApiKeys|
    ensures var m := MessageEntries(args, defaults); Lookup(m, m[i].key) == m[i].val
  {
    var m := MessageEntries(args, defaults);
    MessageApiKeysDistinct();
    assert forall j :: 0 <= j < i ==> m[j].key != m[i].key by {
      forall j | 0 <= j < i ensures m[j].key != m[i].key {
        assert m[j].key == Keys(m)[j] && m[i].key == Keys(m)[i];
      }
    }
    LookupFirst(m, i);
  }

  /** The sender: `from_email` is the caller's `from` or else the defaults'; `from_name` never looks at the caller's `from`. */
  lemma MessageSender(args: seq<Entry>, defaults: seq<Entry>)
    requires MessageArgs(args, defaults) && !InvalidMergeLanguage(args)
    ensures var m := FormatMessagesApiMessageData(args, defaults).value.entries;
      At(m, "from_email") == (if Truthy(At(args, "from")) then At(args, "from") else At(defaults, "from")) &&
      At(m, "from_name") == (if Truthy(At(args, "from_name")) then At(args, "from_name")
                             else if Truthy(At(defaults, "from_name")) then At(defaults, "from_name")
                             else At(defaults, "from"))
  {
    MessageLookup(args, defaults, "from_email");
    MessageLookup(args, defaults, "from_name");
  }

  /** Changing only the caller's `from` leaves `from_name` as it was. */
  lemma FromNameIgnoresCallerFrom(args: seq<Entry>, defaults: seq<Entry>, from: Value)
    requires MessageArgs(args, defaults) && !InvalidMergeLanguage(args)
    ensures var args' := Store(args, Str("from"), from);
      MessageArgs(args', defaults) && !InvalidMergeLanguage(args') &&
      At(FormatMessagesApiMessageData(args', defaults).value.entries, "from_name") ==
      At(FormatMessagesApiMessageData(args, defaults).value.entries, "from_name")
  {
    var args' := Store(args, Str("from"), from);
    StoreFromKeepsArgs(args, defaults, from);
    StoreLookup(args, Str("from"), from, Str("from_name"));
    MessageLookup(args, defaults, "from_name");
    MessageLookup(args', defaults, "from_name");
  }

  /** Replacing the caller's `from` keeps the message's merge data, files and language. */
  lemma StoreFromKeepsArgs(args: seq<Entry>, defaults: seq<Entry>, from: Value)
    requires MessageArgs(args, defaults) && !InvalidMergeLanguage(args)
    ensures MessageArgs(Store(args, Str("from"), from), defaults)
    ensures !InvalidMergeLanguage(Store(args, Str("from"), from))
  {
    StoreLookup(args, Str("from"), from, Str("vars"));
    StoreLookup(args, Str("from"), from, Str("global_merge_vars"));
    StoreLookup(args, Str("from"), from, Str("recipient_vars"));
    StoreLookup(args, Str("from"), from, Str("merge_vars"));
    StoreLookup(args, Str("from"), from, Str("attachments"));
    StoreLookup(args, Str("from"), from, Str("images"));
    StoreLookup(args, Str("from"), from, Str("merge_language"));
  }

  /** The flags that default to true when their key is absent. */
  const TrueByDefault: set<string> := {"track_clicks", "auto_text", "url_strip_qs"}

  /**
    `track_clicks`, `auto_text` and `url_strip_qs` are true when the caller leaves
    the key out, and otherwise the caller's value coerced, so a key given as nil is
    false; `track_opens` is the caller's value as given, true when absent.
   */
  lemma MessageTrackingFlags(args: seq<Entry>, defaults: seq<Entry>, flag: string)
    requires MessageArgs(args, defaults) && !InvalidMergeLanguage(args) && flag in TrueByDefault
    ensures var m := FormatMessagesApiMessageData(args, defaults).value.entries;
      (!HasKey(args, Str(flag)) ==> At(m, flag) == Bool(true)) &&
      (HasKey(args, Str(flag)) ==> At(m, flag) == Boolean(At(args, flag))) &&
      (HasKey(args, Str(flag)) && At(args, flag) == Nil ==> At(m, flag) == Bool(false)) &&
      At(m, "track_opens") == (if HasKey(args, Str("track_opens")) then At(args, "track_opens") else Bool(true))
  {
    MessageLookup(args, defaults, "track_opens");
    MessageLookup(args, defaults, flag);
  }

  /** Where the merge data and the recipient metadata come from. */
  lemma MessageMergeData(args: seq<Entry>, defaults: seq<Entry>)
    requires MessageArgs(args, defaults) && !InvalidMergeLanguage(args)
    ensures var m := FormatMessagesApiMessageData(args, defaults).value.entries;
      At(m, "global_merge_vars") ==
        MandrillArgs(if Truthy(At(args, "vars")) then At(args, "vars")
                     else if Truthy(At(args, "global_merge_vars")) then At(args, "global_merge_vars")
                     else At(defaults, "merge_vars")) &&
      At(m, "merge_vars") == MergeVars(RecipientVarsSource(args)) &&
      At(m, "recipient_metadata") == At(args, "recipient_metadata")
  {
    MessageLookup(args, defaults, "global_merge_vars");
    MessageLookup(args, defaults, "merge_vars");
    MessageLookup(args, defaults, "recipient_metadata");
  }

  /** The recipients are normalised by `params`; the blind copy and the merge language are passed on. */
  lemma MessageRecipients(args: seq<Entry>, defaults: seq<Entry>)
    requires MessageArgs(args, defaults) && !InvalidMergeLanguage(args)
    ensures var m := FormatMessagesApiMessageData(args, defaults).value.entries;
      At(m, "to") == Params(At(args, "to")) &&
      At(m, "bcc_address") == At(args, "bcc") &&
      At(m, "merge_language") == At(args, "merge_language")
  {
    MessageLookup(args, defaults, "to");
    MessageLookup(args, defaults, "bcc_address");
    MessageLookup(args, defaults, "merge_language");
  }

  /** Attachments and images go through the same formatter. */
  lemma MessageFiles(args: seq<Entry>, defaults: seq<Entry>)
    requires MessageArgs(args, defaults) && !InvalidMergeLanguage(args)
    ensures var m := FormatMessagesApiMessageData(args, defaults).value.entries;
      At(m, "attachments") == AttachmentArgs(At(args, "attachments")) &&
      At(m, "images") == AttachmentArgs(At(args, "images"))
  {
    MessageLookup(args, defaults, "attachments");
    MessageLookup(args, defaults, "images");
  }

  /** The source's examples: no arguments and an accepted language are fine. */
  lemma MergeLanguageAccepted()
    ensures FormatMessagesApiMessageData([], []).Ok?
    ensures FormatMessagesApiMessageData([Entry(Str("merge_language"), Str("handlebars"))], []).Ok?
  {
    var ok := [Entry(Str("merge_language"), Str("handlebars"))];
    assert MessageArgs(ok, []);
    assert At(ok, "merge_language") == Str("handlebars");
  }

  /** The source's example of a language that is not accepted. */
  lemma MergeLanguageRejected()
    ensures FormatMessagesApiMessageData([Entry(Str("merge_language"), Str("not_valid"))], []) ==
      Err(InvalidMergeLanguageError(Str("not_valid")))
  {
    var bad := [Entry(Str("merge_language"), Str("not_valid"))];
    assert MessageArgs(bad, []);
    assert At(bad, "merge_language") == Str("not_valid");
  }

  /** The language is checked before any formatter runs: with `vars: "oops"`, which no formatter accepts, the error is still the language's. */
  lemma MergeLanguageCheckedFirst()
    ensures var a := [Entry(Str("merge_language"), Str("x")), Entry(Str("vars"), Str("oops"))];
      !MessageArgs(a, []) && FormatMessagesApiMessageData(a, []) == Err(InvalidMergeLanguageError(Str("x")))
  {
    var a := [Entry(Str("merge_language"), Str("x")), Entry(Str("vars"), Str("oops"))];
    assert At(a, "merge_language") == Str("x");
    assert At(a, "vars") == Str("oops");
  }
}
