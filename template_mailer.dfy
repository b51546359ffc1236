/**
  `MandrillMailer::TemplateMailer`, the mailer for templates stored at Mandrill.

  `mandrill_mail(args)` works on the caller's argument hash: it fills in blank
  template content, normalises `to`, takes `template`, `template_content`,
  `async`, `ip_pool` and `send_at` out of the hash into the instance, builds the
  22-key message from what is left and the class's defaults, and finally lays
  the configured `interceptor_params` over the message. Class-level defaults
  are a plain accessor here: a class sees only what was declared on it.
 */
module TemplateMailer {
  import opened Ruby
  import opened Base64
  import ArgFormatter
  import CoreMailer

  // ---------------------------------------------------------------------------
  // Class-level defaults

  /** The `@defaults` of every template mailer class, by class number; 0 is `TemplateMailer`. */
  class MailerClasses {
    var defaults: seq<Value>

    predicate Valid()
      reads this
    {
      |defaults| > 0
    }

    constructor ()
      ensures Valid() && defaults == [Nil]
    {
      defaults := [Nil];
    }

    /** A new subclass: `defaults` reads its own `@defaults`, so it starts with none, whatever its parent declared. */
    method DefineSubclass() returns (c: CoreMailer.ClassId)
      requires Valid()
      modifies this
      ensures Valid() && c == |old(defaults)| && defaults == old(defaults) + [Nil]
      ensures defaults[c] == Nil
    {
      c := |defaults|;
      defaults := defaults + [Nil];
    }

    /** `self.default(args)`: the same three steps as in `CoreMailer`, on this class's `@defaults`. */
    method Default(c: CoreMailer.ClassId, args: seq<Entry>) returns (r: Value)
      requires Valid() && c < |defaults| && ArgFormatter.MapArg(defaults[c])
      modifies this
      ensures Valid() && defaults == old(defaults)[c := Hash(CoreMailer.DeclareDefaults(old(defaults[c]), args))]
      ensures r == defaults[c]
    {
      if !Truthy(defaults[c]) {
        defaults := defaults[c := Hash([])];
      }
      if !Truthy(At(defaults[c].entries, "from")) {
        defaults := defaults[c := Hash(Store(defaults[c].entries, Str("from"), CoreMailer.FallbackFrom))];
      }
      defaults := defaults[c := Hash(Merge(defaults[c].entries, args))];
      r := defaults[c];
    }

    /** `self.defaults = v` */
    method SetDefaults(c: CoreMailer.ClassId, v: Value)
      requires Valid() && c < |defaults|
      modifies this
      ensures Valid() && defaults == old(defaults)[c := v]
    {
      defaults := defaults[c := v];
    }
  }

  // ---------------------------------------------------------------------------
  // Attachments: only `mimetype`, `filename` and `file` are read

  /** An attachment these formatters can handle: a Hash whose `file` is a byte string. */
  predicate AttachmentSpec(a: Value) {
    a.Hash? && At(a.entries, "file").Str? && IsByteString(At(a.entries, "file").s)
  }

  predicate AttachmentList(v: Value) {
    !Truthy(v) || (v.Arr? && forall i :: 0 <= i < |v.items| ==> AttachmentSpec(v.items[i]))
  }

  function FormatAttachment(a: Value): Value
    requires AttachmentSpec(a)
  {
    var e := a.entries;
    ArgFormatter.TypeNameContent(At(e, "mimetype"), At(e, "filename"), Str(Encode64(BytesOf(At(e, "file").s))))
  }

  /** `mandrill_attachment_args(args)`: nil for nil, otherwise one `{type, name, content}` per attachment. */
  function AttachmentArgs(v: Value): (r: Value)
    requires AttachmentList(v)
    ensures !Truthy(v) ==> r == Nil
    ensures Truthy(v) ==>
      r.Arr? && |r.items| == |v.items| &&
      forall i :: 0 <= i < |v.items| ==>
        var e := v.items[i].entries;
        r.items[i] == ArgFormatter.TypeNameContent(At(e, "mimetype"), At(e, "filename"),
                                                   Str(Encode64(BytesOf(At(e, "file").s))))
  {
    if !Truthy(v) then Nil
    else Arr(seq(|v.items|, i requires 0 <= i < |v.items| => FormatAttachment(v.items[i])))
  }

  /** `mandrill_images_args(args)`: the same block as for attachments. */
  function ImagesArgs(v: Value): (r: Value)
    requires AttachmentList(v)
    ensures r == AttachmentArgs(v)
  {
    if !Truthy(v) then Nil
    else Arr(seq(|v.items|, i requires 0 <= i < |v.items| => FormatAttachment(v.items[i])))
  }

  /**
    With `mimetype` and `filename` given, these formatters agree with the base
    class's, which would also accept `type`, `name` and `content`.
   */
  lemma AttachmentsAgreeWithCore(v: Value)
    requires AttachmentList(v)
    requires v.Arr? ==> forall i :: 0 <= i < |v.items| ==>
      Truthy(At(v.items[i].entries, "mimetype")) && Truthy(At(v.items[i].entries, "filename"))
    ensures CoreMailer.AttachmentList(v)
    ensures AttachmentArgs(v) == CoreMailer.MandrillAttachmentArgs(v)
  {
    if Truthy(v) {
      assert AttachmentArgs(v).items == CoreMailer.MandrillAttachmentArgs(v).items;
    }
  }

  /** The API spelling is not understood here: a `type` without `mimetype` is sent as a nil type. */
  lemma ApiSpellingIgnored(t: Value, n: Value, file: string)
    requires IsByteString(file)
    ensures var a := Hash([Entry(Str("type"), t), Entry(Str("filename"), n), Entry(Str("file"), Str(file))]);
      AttachmentSpec(a) &&
      AttachmentArgs(Arr([a])) == Arr([ArgFormatter.TypeNameContent(Nil, n, Str(Encode64(BytesOf(file))))])
  {
    var e := [Entry(Str("type"), t), Entry(Str("filename"), n), Entry(Str("file"), Str(file))];
    LookupFirst(e, 1);
    LookupFirst(e, 2);
    LookupMissing(e, Str("mimetype"));
    assert AttachmentArgs(Arr([Hash(e)])).items == [FormatAttachment(Hash(e))];
  }

  /** The content of every attachment decodes back to its file. */
  lemma AttachmentContentDecodes(a: Value)
    requires AttachmentSpec(a)
    ensures var r := FormatAttachment(a).entries;
      Keys(r) == [Str("type"), Str("name"), Str("content")] &&
      At(r, "content").Str? && Decode64(At(r, "content").s) == BytesOf(At(a.entries, "file").s)
  {
    var e := a.entries;
    LookupTriple(Str("type"), At(e, "mimetype"), Str("name"), At(e, "filename"),
                 Str("content"), Str(Encode64(BytesOf(At(e, "file").s))));
    RoundTrip(BytesOf(At(e, "file").s));
  }

  // ---------------------------------------------------------------------------
  // Preparing the argument hash (the first half of `mandrill_mail`)

  /** What blank template content is replaced with. */
  const BlankContent: Value := Hash([Entry(Str("blank"), Str(""))])

  /** Template content `mandrill_args` can convert once blanks are replaced: blank or a Hash. */
  predicate ContentArg(v: Value) {
    Blank(v) || v.Hash?
  }

  /** `args[:template_content] = {"blank" => ""} if args[:template_content].blank?` */
  function WithContent(a: seq<Entry>): seq<Entry> {
    if Blank(At(a, "template_content")) then Store(a, Str("template_content"), BlankContent) else a
  }

  /** `args[:to] = format_to_params(args[:to])` */
  function WithTo(a: seq<Entry>): seq<Entry> {
    Store(a, Str("to"), CoreMailer.FormatToParams(At(a, "to")))
  }

  /** The template content `mandrill_mail` converts: the caller's, or `BlankContent` when that is blank. */
  function ContentSource(a: seq<Entry>): (c: Value)
    requires ContentArg(At(a, "template_content"))
    ensures c.Hash?
    ensures Blank(At(a, "template_content")) ==> c == BlankContent
    ensures !Blank(At(a, "template_content")) ==> c == At(a, "template_content")
  {
    if Blank(At(a, "template_content")) then BlankContent else At(a, "template_content")
  }

  /** `delete` of the keys that become instance fields; `send_at` only when present. */
  function TakeKeys(a: seq<Entry>): seq<Entry> {
    var t := Delete(Delete(Delete(Delete(a, Str("template")), Str("template_content")), Str("async")), Str("ip_pool"));
    if HasKey(t, Str("send_at")) then Delete(t, Str("send_at")) else t
  }

  /** The argument hash once the instance fields have been taken out of it. */
  function Prepared(a0: seq<Entry>): seq<Entry> {
    TakeKeys(WithTo(WithContent(a0)))
  }

  /** The keys `mandrill_mail` takes out of the argument hash. */
  const TakenKeys: set<string> := {"template", "template_content", "async", "ip_pool", "send_at"}

  /**
    Filling in the content and normalising `to` keep what the instance fields
    are taken from; the template content is then the one `mandrill_mail` converts.
   */
  lemma NormalisedFields(a0: seq<Entry>)
    requires ContentArg(At(a0, "template_content"))
    ensures var a2 := WithTo(WithContent(a0));
      At(a2, "template") == At(a0, "template") &&
      At(a2, "template_content") == ContentSource(a0) &&
      At(a2, "async") == At(a0, "async") &&
      At(a2, "ip_pool") == At(a0, "ip_pool") &&
      (HasKey(a2, Str("send_at")) <==> HasKey(a0, Str("send_at"))) &&
      At(a2, "send_at") == At(a0, "send_at")
  {
    var a1 := WithContent(a0);
    var to := CoreMailer.FormatToParams(At(a1, "to"));
    WithToLookup(a0, Str("template"));
    WithToLookup(a0, Str("async"));
    WithToLookup(a0, Str("ip_pool"));
    WithToLookup(a0, Str("send_at"));
    StoreLookup(a0, Str("template_content"), BlankContent, Str("template_content"));
    StoreLookup(a1, Str("to"), to, Str("template_content"));
  }

  /** Each `delete` of `mandrill_mail` leaves the keys taken after it as they were. */
  lemma TakeSteps(a: seq<Entry>)
    ensures var a3 := Delete(a, Str("template"));
      var a4 := Delete(a3, Str("template_content"));
      var a5 := Delete(a4, Str("async"));
      var a6 := Delete(a5, Str("ip_pool"));
      At(a3, "template_content") == At(a, "template_content") &&
      At(a4, "async") == At(a, "async") &&
      At(a5, "ip_pool") == At(a, "ip_pool") &&
      At(a6, "send_at") == At(a, "send_at") &&
      (HasKey(a6, Str("send_at")) <==> HasKey(a, Str("send_at")))
  {
    var a3 := Delete(a, Str("template"));
    var a4 := Delete(a3, Str("template_content"));
    var a5 := Delete(a4, Str("async"));
    DeleteLookup(a, Str("template"), Str("template_content"));
    DeleteLookup(a, Str("template"), Str("async"));
    DeleteLookup(a, Str("template"), Str("ip_pool"));
    DeleteLookup(a, Str("template"), Str("send_at"));
    DeleteLookup(a3, Str("template_content"), Str("async"));
    DeleteLookup(a3, Str("template_content"), Str("ip_pool"));
    DeleteLookup(a3, Str("template_content"), Str("send_at"));
    DeleteLookup(a4, Str("async"), Str("ip_pool"));
    DeleteLookup(a4, Str("async"), Str("send_at"));
    DeleteLookup(a5, Str("ip_pool"), Str("send_at"));
    DeleteHasKey(a, Str("template"), Str("send_at"));
    DeleteHasKey(a3, Str("template_content"), Str("send_at"));
    DeleteHasKey(a4, Str("async"), Str("send_at"));
    DeleteHasKey(a5, Str("ip_pool"), Str("send_at"));
  }

  /** Taking the keys out removes them and leaves every other key as it was. */
  lemma TakeKeysLookup(a: seq<Entry>, q: Value)
    ensures var t := TakeKeys(a);
      (q.Str? && q.s in TakenKeys ==> Lookup(t, q) == Nil && !HasKey(t, q)) &&
      (!(q.Str? && q.s in TakenKeys) ==> Lookup(t, q) == Lookup(a, q) && (HasKey(t, q) <==> HasKey(a, q)))
  {
    var a3 := Delete(a, Str("template"));
    var a4 := Delete(a3, Str("template_content"));
    var a5 := Delete(a4, Str("async"));
    var a6 := Delete(a5, Str("ip_pool"));
    DeleteLookup(a, Str("template"), q);
    DeleteLookup(a3, Str("template_content"), q);
    DeleteLookup(a4, Str("async"), q);
    DeleteLookup(a5, Str("ip_pool"), q);
    DeleteLookup(a6, Str("send_at"), q);
    DeleteHasKey(a, Str("template"), q);
    DeleteHasKey(a3, Str("template_content"), q);
    DeleteHasKey(a4, Str("async"), q);
    DeleteHasKey(a5, Str("ip_pool"), q);
    DeleteHasKey(a6, Str("send_at"), q);
    if !HasKey(a6, Str("send_at")) && q == Str("send_at") {
      LookupMissing(a6, q);
    }
  }

  /** Filling in the content and normalising `to` change those two keys only. */
  lemma WithToLookup(a0: seq<Entry>, q: Value)
    ensures var a2 := WithTo(WithContent(a0));
      At(a2, "to") == ArgFormatter.Params(At(a0, "to")) &&
      (q != Str("to") && q != Str("template_content") ==>
        Lookup(a2, q) == Lookup(a0, q) && (HasKey(a2, q) <==> HasKey(a0, q)))
  {
    var a1 := WithContent(a0);
    var to := CoreMailer.FormatToParams(At(a1, "to"));
    StoreLookup(a0, Str("template_content"), BlankContent, q);
    StoreLookup(a0, Str("template_content"), BlankContent, Str("to"));
    StoreLookup(a1, Str("to"), to, q);
    StoreLookup(a1, Str("to"), to, Str("to"));
    StoreHasKey(a0, Str("template_content"), BlankContent, q);
    StoreHasKey(a1, Str("to"), to, q);
  }

  /**
    After the preparation the taken keys are gone, `to` holds the normalised
    recipients, and every other key holds what the caller passed.
   */
  lemma PreparedLookup(a0: seq<Entry>, q: Value)
    ensures var p := Prepared(a0);
      (q.Str? && q.s in TakenKeys ==> Lookup(p, q) == Nil && !HasKey(p, q)) &&
      (q == Str("to") ==> Lookup(p, q) == ArgFormatter.Params(At(a0, "to"))) &&
      (q != Str("to") && !(q.Str? && q.s in TakenKeys) ==>
        Lookup(p, q) == Lookup(a0, q) && (HasKey(p, q) <==> HasKey(a0, q)))
  {
    WithToLookup(a0, q);
    TakeKeysLookup(WithTo(WithContent(a0)), q);
  }

  /**
    The converted template content: blank content (nil, empty, whitespace)
    becomes `[{"name" => "blank", "content" => ""}]`, a Hash is converted entry by entry.
   */
  lemma TemplateContentConverted(a0: seq<Entry>)
    requires ContentArg(At(a0, "template_content"))
    ensures Blank(At(a0, "template_content")) ==>
      ArgFormatter.MandrillArgs(ContentSource(a0)) == Arr([ArgFormatter.NameContent(Str("blank"), Str(""))])
    ensures !Blank(At(a0, "template_content")) ==>
      ArgFormatter.MandrillArgs(ContentSource(a0)) == ArgFormatter.MandrillArgs(At(a0, "template_content"))
  {
    if Blank(At(a0, "template_content")) {
      assert ArgFormatter.MandrillArgs(BlankContent).items == [ArgFormatter.NameContent(Str("blank"), Str(""))];
    }
  }

  // ---------------------------------------------------------------------------
  // The message

  /** The keys of the template message, in the order the literal writes them. */
  const MessageKeys: seq<Value> := [
    Str("subject"), Str("from_email"), Str("from_name"), Str("to"), Str("headers"), Str("important"),
    Str("track_opens"), Str("track_clicks"), Str("auto_text"), Str("inline_css"), Str("url_strip_qs"),
    Str("preserve_recipients"), Str("bcc_address"), Str("global_merge_vars"), Str("merge_vars"),
    Str("tags"), Str("subaccount"), Str("google_analytics_domains"), Str("google_analytics_campaign"),
    Str("metadata"), Str("attachments"), Str("images")]

  /** The argument shapes the message's formatters can handle. */
  predicate MessageArgs(args: seq<Entry>) {
    ArgFormatter.MapArg(At(args, "vars")) &&
    ArgFormatter.MergeVarsArg(At(args, "recipient_vars")) &&
    AttachmentList(At(args, "attachments")) &&
    AttachmentList(At(args, "images"))
  }

  /** The value the message literal gives `key`, `d` being the class's defaults; nil for other keys. */
  function MessageValue(args: seq<Entry>, d: seq<Entry>, key: string): Value
    requires MessageArgs(args)
  {
    match key
    case "subject" => At(args, "subject")
    case "from_email" => Or(At(args, "from"), At(d, "from"))
    case "from_name" => Or(Or(At(args, "from_name"), At(d, "from_name")), At(d, "from"))
    case "to" => At(args, "to")
    case "headers" => At(args, "headers")
    case "important" => At(args, "important")
    case "track_opens" => Fetch(args, Str("track_opens"), Bool(true))
    case "track_clicks" => Fetch(args, Str("track_clicks"), Bool(true))
    case "auto_text" => Bool(true)
    case "inline_css" => At(args, "inline_css")
    case "url_strip_qs" => Fetch(args, Str("url_strip_qs"), Bool(true))
    case "preserve_recipients" => At(args, "preserve_recipients")
    case "bcc_address" => At(args, "bcc")
    case "global_merge_vars" => CoreMailer.MandrillArgs(At(args, "vars"))
    case "merge_vars" => CoreMailer.MandrillRcptArgs(At(args, "recipient_vars"))
    case "tags" => At(args, "tags")
    case "subaccount" => At(args, "subaccount")
    case "google_analytics_domains" => At(args, "google_analytics_domains")
    case "google_analytics_campaign" => At(args, "google_analytics_campaign")
    case "metadata" => At(args, "metadata")
    case "attachments" => AttachmentArgs(At(args, "attachments"))
    case "images" => ImagesArgs(At(args, "images"))
    case _ => Nil
  }

  /** The message literal: every key of `MessageKeys`, in order, with its value. */
  function MessageEntries(args: seq<Entry>, d: seq<Entry>): (m: seq<Entry>)
    requires MessageArgs(args)
    ensures Keys(m) == MessageKeys
  {
    seq(|MessageKeys|, i requires 0 <= i < |MessageKeys| => Entry(MessageKeys[i], MessageValue(args, d, MessageKeys[i].s)))
  }

  lemma MessageKeysDistinct()
    ensures Distinct(MessageKeys)
  {
    KeysDistinctWithin(0);
    KeysDistinctWithin(11);
    KeysDistinctAcross();
  }

  lemma KeysDistinctWithin(lo: nat)
    requires lo == 0 || lo == 11
    ensures forall i, j :: lo <= i < j < lo + 11 ==> MessageKeys[i] != MessageKeys[j]
  {
  }

  lemma KeysDistinctAcross()
    ensures forall i, j :: 0 <= i < 11 <= j < 22 ==> MessageKeys[i] != MessageKeys[j]
  {
  }

  /** Looking a key up in the message finds the value the literal gives it. */
  lemma MessageLookup(args: seq<Entry>, d: seq<Entry>, key: string)
    requires MessageArgs(args)
    ensures At(MessageEntries(args, d), key) == MessageValue(args, d, key)
  {
    var m := MessageEntries(args, d);
    if HasKey(m, Str(key)) {
      var i :| 0 <= i < |m| && m[i].key == Str(key);
      MessageEntryLookup(args, d, i);
    } else {
      LookupMissing(m, Str(key));
      assert Str(key) !in MessageKeys by {
        forall i | 0 <= i < |MessageKeys| ensures MessageKeys[i] != Str(key) {
          assert m[i].key == Keys(m)[i];
        }
      }
      MessageValueMissing(args, d, key);
    }
  }

  /** A key the literal does not list is absent. */
  lemma MessageValueMissing(args: seq<Entry>, d: seq<Entry>, key: string)
    requires MessageArgs(args) && Str(key) !in MessageKeys
    ensures MessageValue(args, d, key) == Nil
  {
  }

  /** The entry at position `i` is the one a lookup of its key finds. */
  lemma MessageEntryLookup(args: seq<Entry>, d: seq<Entry>, i: nat)
    requires MessageArgs(args) && i < |MessageKeys|
    ensures var m := MessageEntries(args, d); Lookup(m, m[i].key) == m[i].val
  {
    var m := MessageEntries(args, d);
    MessageKeysDistinct();
    assert forall j :: 0 <= j < i ==> m[j].key != m[i].key by {
      forall j | 0 <= j < i ensures m[j].key != m[i].key {
        assert m[j].key == Keys(m)[j] && m[i].key == Keys(m)[i];
      }
    }
    LookupFirst(m, i);
  }

  /** `self.class.defaults[...]` is read only for a sender the caller left out. */
  predicate NeedsDefaults(args: seq<Entry>) {
    !Truthy(At(args, "from")) || !Truthy(At(args, "from_name"))
  }

  /** Reading `[:from]` or `[:from_name]` of defaults that were never declared raises `NoMethodError`. */
  predicate MissingDefaults(defaults: Value, args: seq<Entry>) {
    !Truthy(defaults) && NeedsDefaults(args)
  }

  /** The entries of declared defaults; none when there are none. */
  function EntriesOf(defaults: Value): seq<Entry>
    requires ArgFormatter.MapArg(defaults)
  {
    if Truthy(defaults) then defaults.entries else []
  }

  /**
    The message built from the (prepared) arguments and the class's defaults:
    `NoMethodError` when a sender is needed from defaults that were never
    declared, otherwise the 22-key hash.
   */
  function BuildMessage(args: seq<Entry>, defaults: Value): (r: Result<seq<Entry>>)
    requires (MissingDefaults(defaults, args) || MessageArgs(args)) && ArgFormatter.MapArg(defaults)
    ensures r.Err? <==> MissingDefaults(defaults, args)
    ensures r.Err? ==> r.error == NoMethodError
    ensures r.Ok? ==> Keys(r.value) == MessageKeys
  {
    if MissingDefaults(defaults, args) then Err(NoMethodError)
    else Ok(MessageEntries(args, EntriesOf(defaults)))
  }
  /** Missing defaults raise before any formatter reads its input: `vars: "oops"` is never formatted. */
  lemma MissingDefaultsRaiseFirst()
    ensures var a := [Entry(Str("vars"), Str("oops"))];
      !MessageArgs(a) && BuildMessage(a, Nil) == Err(NoMethodError)
  {
    var a := [Entry(Str("vars"), Str("oops"))];
    assert At(a, "vars") == Str("oops");
    assert At(a, "from") == Nil;
  }


  /**
    The sender: `from_email` is the caller's `from` or else the defaults',
    `from_name` the caller's `from_name`, else the defaults' `from_name`, else
    the defaults' `from`.
   */
  lemma MessageSender(args: seq<Entry>, defaults: Value)
    requires MessageArgs(args) && ArgFormatter.MapArg(defaults) && !MissingDefaults(defaults, args)
    ensures var m := BuildMessage(args, defaults).value;
      var d := EntriesOf(defaults);
      At(m, "from_email") == (if Truthy(At(args, "from")) then At(args, "from") else At(d, "from")) &&
      At(m, "from_name") == (if Truthy(At(args, "from_name")) then At(args, "from_name")
                             else if Truthy(At(d, "from_name")) then At(d, "from_name")
                             else At(d, "from"))
  {
    MessageLookup(args, EntriesOf(defaults), "from_email");
    MessageLookup(args, EntriesOf(defaults), "from_name");
  }

  /**
    A class that declared only `default from: x`, and a call that names no
    sender: both `from_email` and `from_name` are `x`.
   */
  lemma OnlyDefaultFrom(args: seq<Entry>, x: string)
    requires MessageArgs(args) && !HasKey(args, Str("from")) && !HasKey(args, Str("from_name"))
    ensures var defaults := Hash(CoreMailer.DeclareDefaults(Nil, [Entry(Str("from"), Str(x))]));
      BuildMessage(args, defaults).Ok? &&
      At(BuildMessage(args, defaults).value, "from_email") == Str(x) &&
      At(BuildMessage(args, defaults).value, "from_name") == Str(x)
  {
    var given := [Entry(Str("from"), Str(x))];
    var d := CoreMailer.DeclareDefaults(Nil, given);
    assert HasKey(given, Str("from"));
    assert !HasKey(given, Str("from_name"));
    CoreMailer.DeclareDefaultsLookup(Nil, given, Str("from"));
    CoreMailer.DeclareDefaultsLookup(Nil, given, Str("from_name"));
    LookupMissing(args, Str("from"));
    LookupMissing(args, Str("from_name"));
    MessageSender(args, Hash(d));
  }

  /**
    The flags: `track_opens`, `track_clicks` and `url_strip_qs` are the caller's
    value as given, true when the key is absent; `auto_text` is always true.
   */
  lemma MessageFlags(args: seq<Entry>, defaults: Value, flag: string)
    requires MessageArgs(args) && ArgFormatter.MapArg(defaults) && !MissingDefaults(defaults, args)
    requires flag == "track_opens" || flag == "track_clicks" || flag == "url_strip_qs"
    ensures var m := BuildMessage(args, defaults).value;
      At(m, flag) == (if HasKey(args, Str(flag)) then At(args, flag) else Bool(true)) &&
      At(m, "auto_text") == Bool(true)
  {
    MessageLookup(args, EntriesOf(defaults), flag);
    MessageLookup(args, EntriesOf(defaults), "auto_text");
  }

  /**
    Merge data defaults to empty lists and files to nil: with none of `vars`,
    `recipient_vars`, `attachments` and `images` given, the message has `[]`,
    `[]`, nil and nil under the keys they feed.
   */
  lemma MessageAbsentParts(args: seq<Entry>, defaults: Value)
    requires ArgFormatter.MapArg(defaults) && !MissingDefaults(defaults, args)
    requires !HasKey(args, Str("vars")) && !HasKey(args, Str("recipient_vars"))
    requires !HasKey(args, Str("attachments")) && !HasKey(args, Str("images"))
    ensures MessageArgs(args)
    ensures var m := BuildMessage(args, defaults).value;
      At(m, "global_merge_vars") == Arr([]) && At(m, "merge_vars") == Arr([]) &&
      At(m, "attachments") == Nil && At(m, "images") == Nil
  {
    LookupMissing(args, Str("vars"));
    LookupMissing(args, Str("recipient_vars"));
    LookupMissing(args, Str("attachments"));
    LookupMissing(args, Str("images"));
    MessageFormattedParts(args, defaults);
  }

  /** Given merge data and files are formatted by the mailer's helpers. */
  lemma MessageFormattedParts(args: seq<Entry>, defaults: Value)
    requires MessageArgs(args) && ArgFormatter.MapArg(defaults) && !MissingDefaults(defaults, args)
    ensures var m := BuildMessage(args, defaults).value;
      At(m, "global_merge_vars") == ArgFormatter.MandrillArgs(At(args, "vars")) &&
      At(m, "merge_vars") == ArgFormatter.MergeVars(At(args, "recipient_vars")) &&
      At(m, "attachments") == AttachmentArgs(At(args, "attachments")) &&
      At(m, "images") == AttachmentArgs(At(args, "images")) &&
      At(m, "bcc_address") == At(args, "bcc")
  {
    MessageMergeData(args, EntriesOf(defaults));
    MessageFiles(args, EntriesOf(defaults));
  }

  lemma MessageMergeData(args: seq<Entry>, d: seq<Entry>)
    requires MessageArgs(args)
    ensures At(MessageEntries(args, d), "global_merge_vars") == ArgFormatter.MandrillArgs(At(args, "vars"))
    ensures At(MessageEntries(args, d), "merge_vars") == ArgFormatter.MergeVars(At(args, "recipient_vars"))
  {
    MessageLookup(args, d, "global_merge_vars");
    MessageLookup(args, d, "merge_vars");
  }

  lemma MessageFiles(args: seq<Entry>, d: seq<Entry>)
    requires MessageArgs(args)
    ensures At(MessageEntries(args, d), "attachments") == AttachmentArgs(At(args, "attachments"))
    ensures At(MessageEntries(args, d), "images") == AttachmentArgs(At(args, "images"))
    ensures At(MessageEntries(args, d), "bcc_address") == At(args, "bcc")
  {
    MessageLookup(args, d, "attachments");
    MessageLookup(args, d, "images");
    MessageLookup(args, d, "bcc_address");
  }

  /** The preparation keeps the message's inputs, so the message can be built from the prepared hash. */
  lemma PreparedMessageArgs(a0: seq<Entry>)
    requires MessageArgs(a0)
    ensures MessageArgs(Prepared(a0))
    ensures NeedsDefaults(Prepared(a0)) <==> NeedsDefaults(a0)
  {
    PreparedVariables(a0);
    PreparedAttachments(a0);
    PreparedSender(a0);
  }

  lemma PreparedTo(a0: seq<Entry>)
    ensures At(Prepared(a0), "to") == ArgFormatter.Params(At(a0, "to"))
  {
    PreparedLookup(a0, Str("to"));
  }

  lemma PreparedVariables(a0: seq<Entry>)
    ensures At(Prepared(a0), "vars") == At(a0, "vars")
    ensures At(Prepared(a0), "recipient_vars") == At(a0, "recipient_vars")
  {
    PreparedLookup(a0, Str("vars"));
    PreparedLookup(a0, Str("recipient_vars"));
  }

  lemma PreparedAttachments(a0: seq<Entry>)
    ensures At(Prepared(a0), "attachments") == At(a0, "attachments")
    ensures At(Prepared(a0), "images") == At(a0, "images")
  {
    PreparedLookup(a0, Str("attachments"));
    PreparedLookup(a0, Str("images"));
  }

  lemma PreparedSender(a0: seq<Entry>)
    ensures At(Prepared(a0), "from") == At(a0, "from")
    ensures At(Prepared(a0), "from_name") == At(a0, "from_name")
  {
    PreparedLookup(a0, Str("from"));
    PreparedLookup(a0, Str("from_name"));
  }

  /** The message's recipients are the caller's `to`, normalised: a bare address `s` becomes `[{"email" => s, "name" => s}]`. */
  lemma MessageRecipients(a0: seq<Entry>, defaults: Value)
    requires MessageArgs(a0) && ArgFormatter.MapArg(defaults) && !MissingDefaults(defaults, a0)
    ensures MessageArgs(Prepared(a0)) && !MissingDefaults(defaults, Prepared(a0))
    ensures var m := BuildMessage(Prepared(a0), defaults).value;
      At(m, "to") == ArgFormatter.Params(At(a0, "to")) &&
      (At(a0, "to").Str? ==> At(m, "to") == Arr([ArgFormatter.EmailAndName(At(a0, "to"), At(a0, "to"))]))
  {
    PreparedMessageArgs(a0);
    PreparedTo(a0);
    MessageLookup(Prepared(a0), EntriesOf(defaults), "to");
  }

  // ---------------------------------------------------------------------------
  // The interceptor overlay

  /** `interceptor_params` that is set but is not a Hash. */
  predicate BadInterceptor(interceptor: Value) {
    !interceptor.Nil? && !interceptor.Hash?
  }

  /** `self.message.merge!(interceptor_params.stringify_keys)` when the overlay is a Hash. */
  function Overlay(message: seq<Entry>, interceptor: Value): seq<Entry> {
    if interceptor.Hash? then Merge(message, interceptor.entries) else message
  }

  /** Every key of the overlay overrides the message; every other key of the message is unchanged. */
  lemma OverlayLookup(message: seq<Entry>, interceptor: Value, q: Value)
    requires interceptor.Hash? ==> UniqueKeys(interceptor.entries)
    ensures interceptor.Nil? ==> Overlay(message, interceptor) == message
    ensures interceptor.Hash? && HasKey(interceptor.entries, q) ==>
      Lookup(Overlay(message, interceptor), q) == Lookup(interceptor.entries, q)
    ensures !(interceptor.Hash? && HasKey(interceptor.entries, q)) ==>
      Lookup(Overlay(message, interceptor), q) == Lookup(message, q)
  {
    if interceptor.Hash? {
      MergeLookup(message, interceptor.entries, q);
    }
  }

  /** The overlay only adds keys: the message's keys stay first, in their order. */
  lemma OverlayKeys(message: seq<Entry>, interceptor: Value)
    ensures |Overlay(message, interceptor)| >= |message|
    ensures Keys(Overlay(message, interceptor))[..|message|] == Keys(message)
  {
    if interceptor.Hash? {
      MergeKeysPrefix(message, interceptor.entries);
    }
  }

  /** What a reader of `key` finds after the overlay: the interceptor's value where it sets the key, `v` otherwise. */
  function Intercepted(interceptor: Value, key: string, v: Value): Value {
    if interceptor.Hash? && HasKey(interceptor.entries, Str(key)) then At(interceptor.entries, key) else v
  }

  /** The prepared hash still holds the caller's sender and bcc, and the normalised `to`. */
  lemma PreparedReaderInputs(a0: seq<Entry>)
    ensures At(Prepared(a0), "from") == At(a0, "from")
    ensures At(Prepared(a0), "to") == ArgFormatter.Params(At(a0, "to"))
    ensures At(Prepared(a0), "bcc") == At(a0, "bcc")
  {
    PreparedSender(a0);
    PreparedTo(a0);
    PreparedLookup(a0, Str("bcc"));
  }

  /** The fields `from`, `to` and `bcc` read in the message built from the prepared hash. */
  lemma MessageReaderFields(a0: seq<Entry>, d: seq<Entry>)
    requires MessageArgs(a0)
    ensures MessageArgs(Prepared(a0))
    ensures var m := MessageEntries(Prepared(a0), d);
      At(m, "from_email") == Or(At(a0, "from"), At(d, "from")) &&
      At(m, "to") == ArgFormatter.Params(At(a0, "to")) &&
      At(m, "bcc_address") == At(a0, "bcc")
  {
    PreparedMessageArgs(a0);
    PreparedReaderInputs(a0);
    MessageReaderLookups(Prepared(a0), d);
  }

  lemma MessageReaderLookups(args: seq<Entry>, d: seq<Entry>)
    requires MessageArgs(args)
    ensures var m := MessageEntries(args, d);
      At(m, "from_email") == Or(At(args, "from"), At(d, "from")) &&
      At(m, "to") == At(args, "to") && At(m, "bcc_address") == At(args, "bcc")
  {
    MessageLookup(args, d, "from_email");
    MessageLookup(args, d, "to");
    MessageLookup(args, d, "bcc_address");
  }

  /**
    After `mandrill_mail`, `from` is the caller's `from` or else the defaults',
    `to` the caller's recipients normalised and `bcc` the caller's `bcc`,
    each unless the interceptor sets it.
   */
  lemma MailReaders(a0: seq<Entry>, defaults: Value, interceptor: Value)
    requires MessageArgs(a0) && ArgFormatter.MapArg(defaults)
    requires interceptor.Nil? || (interceptor.Hash? && UniqueKeys(interceptor.entries))
    ensures MessageArgs(Prepared(a0))
    ensures var m := Hash(Overlay(MessageEntries(Prepared(a0), EntriesOf(defaults)), interceptor));
      CoreMailer.MessageField(m, "from_email") ==
        Intercepted(interceptor, "from_email", Or(At(a0, "from"), At(EntriesOf(defaults), "from"))) &&
      CoreMailer.MessageField(m, "to") == Intercepted(interceptor, "to", ArgFormatter.Params(At(a0, "to"))) &&
      CoreMailer.MessageField(m, "bcc_address") == Intercepted(interceptor, "bcc_address", At(a0, "bcc"))
  {
    MessageReaderFields(a0, EntriesOf(defaults));
    var message := MessageEntries(Prepared(a0), EntriesOf(defaults));
    OverlayLookup(message, interceptor, Str("from_email"));
    OverlayLookup(message, interceptor, Str("to"));
    OverlayLookup(message, interceptor, Str("bcc_address"));
  }

  // ---------------------------------------------------------------------------
  // The instance

  /** The seven keys of `data`. */
  const DataKeys: seq<Value> := [
    Str("key"), Str("template_name"), Str("template_content"), Str("message"), Str("async"),
    Str("ip_pool"), Str("send_at")]

  /** The hash `data` returns. */
  function DataHash(key: Value, name: Value, content: Value, message: Value, async: Value, ipPool: Value,
                    sendAt: Value): seq<Entry>
  {
    [Entry(Str("key"), key), Entry(Str("template_name"), name), Entry(Str("template_content"), content),
     Entry(Str("message"), message), Entry(Str("async"), async), Entry(Str("ip_pool"), ipPool),
     Entry(Str("send_at"), sendAt)]
  }

  /** `data` has exactly the seven keys, each holding the field of its name. */
  lemma DataFields(key: Value, name: Value, content: Value, message: Value, async: Value, ipPool: Value,
                   sendAt: Value)
    ensures var h := DataHash(key, name, content, message, async, ipPool, sendAt);
      Keys(h) == DataKeys &&
      At(h, "key") == key && At(h, "template_name") == name && At(h, "template_content") == content &&
      At(h, "message") == message && At(h, "async") == async && At(h, "ip_pool") == ipPool &&
      At(h, "send_at") == sendAt
  {
    var h := DataHash(key, name, content, message, async, ipPool, sendAt);
    LookupFirst(h, 1);
    LookupFirst(h, 2);
    LookupFirst(h, 3);
    LookupFirst(h, 4);
    LookupFirst(h, 5);
    LookupFirst(h, 6);
  }

  /**
    What `mandrill_mail` can be given: template content it can convert, and
    message inputs its formatters handle unless the missing defaults raise first.
   */
  predicate MailArgs(a: seq<Entry>, defaults: Value) {
    ContentArg(At(a, "template_content")) && (MissingDefaults(defaults, a) || MessageArgs(a))
  }

  /**
    The start of `mandrill_mail`: blank template content is replaced by
    `BlankContent` and `to` by its normalised form, in the caller's hash.
   */
  method NormaliseArguments(args: HashRef)
    modifies args
    ensures args.entries == WithTo(WithContent(old(args.entries)))
  {
    var content := args.Get(Str("template_content"));
    if Blank(content) {
      args.Put(Str("template_content"), BlankContent);
    }
    var to := args.Get(Str("to"));
    args.Put(Str("to"), CoreMailer.FormatToParams(to));
  }

  /** A template mailer instance of class `mailerClass`. */
  class Mailer {
    const mailerClass: CoreMailer.ClassId
    var templateName: Value
    var templateContent: Value
    var message: Value
    var async: Value
    var ipPool: Value
    var sendAt: Value

    constructor (mailerClass: CoreMailer.ClassId)
      ensures this.mailerClass == mailerClass
      ensures templateName == Nil && templateContent == Nil && message == Nil
      ensures async == Nil && ipPool == Nil && sendAt == Nil
      ensures Valid() && From() == Nil && To() == Nil && Bcc() == Nil
    {
      this.mailerClass := mailerClass;
      templateName := Nil;
      templateContent := Nil;
      message := Nil;
      async := Nil;
      ipPool := Nil;
      sendAt := Nil;
    }

    predicate Valid()
      reads this
    {
      CoreMailer.MessageState(message)
    }

    /** `from` */
    function From(): (r: Value)
      requires Valid()
      reads this
      ensures CoreMailer.ReadsField(message, "from_email", r)
    {
      CoreMailer.MessageField(message, "from_email")
    }

    /** `to` */
    function To(): (r: Value)
      requires Valid()
      reads this
      ensures CoreMailer.ReadsField(message, "to", r)
    {
      CoreMailer.MessageField(message, "to")
    }

    /** `bcc` */
    function Bcc(): (r: Value)
      requires Valid()
      reads this
      ensures CoreMailer.ReadsField(message, "bcc_address", r)
    {
      CoreMailer.MessageField(message, "bcc_address")
    }

    /** `data`, given the configured API key. */
    function Data(apiKey: Value): (r: Value)
      reads this
      ensures r.Hash? && Keys(r.entries) == DataKeys
      ensures At(r.entries, "key") == apiKey && At(r.entries, "template_name") == templateName
      ensures At(r.entries, "template_content") == templateContent && At(r.entries, "message") == message
      ensures At(r.entries, "async") == async && At(r.entries, "ip_pool") == ipPool && At(r.entries, "send_at") == sendAt
    {
      DataFields(apiKey, templateName, templateContent, message, async, ipPool, sendAt);
      Hash(DataHash(apiKey, templateName, templateContent, message, async, ipPool, sendAt))
    }

    /**
      `mandrill_mail`'s moves of `template`, `template_content`, `async`,
      `ip_pool` and (when given) `send_at` out of the argument hash into the instance.
     */
    method TakeArguments(args: HashRef)
      requires ArgFormatter.MapArg(At(args.entries, "template_content"))
      modifies this, args
      ensures args.entries == TakeKeys(old(args.entries))
      ensures templateName == At(old(args.entries), "template")
      ensures templateContent == ArgFormatter.MandrillArgs(At(old(args.entries), "template_content"))
      ensures async == At(old(args.entries), "async") && ipPool == At(old(args.entries), "ip_pool")
      ensures sendAt == if HasKey(old(args.entries), Str("send_at")) then At(old(args.entries), "send_at") else old(sendAt)
      ensures message == old(message)
    {
      TakeSteps(args.entries);
      templateName := args.Take(Str("template"));
      var content := args.Take(Str("template_content"));
      templateContent := CoreMailer.MandrillArgs(content);
      async := args.Take(Str("async"));
      ipPool := args.Take(Str("ip_pool"));
      if HasKey(args.entries, Str("send_at")) {
        // `getutc.strftime(...)` is not modelled: the value is kept as given
        sendAt := args.Take(Str("send_at"));
      }
    }

    /**
      `mandrill_mail(args)`, with `classes` holding `self.class.defaults` and
      `interceptor` the configured `interceptor_params`. The argument hash is
      changed in place; each failure leaves behind what was already assigned.
     */
    method MandrillMail(args: HashRef, classes: MailerClasses, interceptor: Value) returns (r: Result<Mailer>)
      requires classes.Valid() && mailerClass < |classes.defaults|
      requires ArgFormatter.MapArg(classes.defaults[mailerClass])
      requires MailArgs(args.entries, classes.defaults[mailerClass])
      requires interceptor.Hash? ==> UniqueKeys(interceptor.entries)
      modifies this, args
      ensures args.entries == Prepared(old(args.entries))
      ensures MessageArgs(old(args.entries)) ==> MessageArgs(args.entries)
      ensures NeedsDefaults(args.entries) <==> NeedsDefaults(old(args.entries))
      ensures templateName == At(old(args.entries), "template")
      ensures templateContent == ArgFormatter.MandrillArgs(ContentSource(old(args.entries)))
      ensures async == At(old(args.entries), "async") && ipPool == At(old(args.entries), "ip_pool")
      ensures sendAt == if HasKey(old(args.entries), Str("send_at")) then At(old(args.entries), "send_at") else old(sendAt)
      ensures var defaults := classes.defaults[mailerClass];
        if MissingDefaults(defaults, old(args.entries)) then
          r == Err(NoMethodError) && message == old(message)
        else if BadInterceptor(interceptor) then
          r == Err(InvalidInterceptorParams) && message == Hash(MessageEntries(args.entries, EntriesOf(defaults)))
        else
          r == Ok(this) && message == Hash(Overlay(MessageEntries(args.entries, EntriesOf(defaults)), interceptor))
      ensures var defaults := classes.defaults[mailerClass];
        r.Ok? ==> (Valid() &&
          From() == Intercepted(interceptor, "from_email", Or(At(old(args.entries), "from"), At(EntriesOf(defaults), "from"))) &&
          To() == Intercepted(interceptor, "to", ArgFormatter.Params(At(old(args.entries), "to"))) &&
          Bcc() == Intercepted(interceptor, "bcc_address", At(old(args.entries), "bcc")))
    {
      PreparedSender(args.entries);
      if MessageArgs(args.entries) {
        MailReaders(args.entries, classes.defaults[mailerClass], if BadInterceptor(interceptor) then Nil else interceptor);
        PreparedMessageArgs(args.entries);
      }
      NormalisedFields(args.entries);
      NormaliseArguments(args);
      TakeArguments(args);
      r := AssembleMessage(args.entries, classes.defaults[mailerClass], interceptor);
    }

    /**
      The end of `mandrill_mail`: the message built from the prepared
      arguments, then the interceptor overlay, then `self`.
     */
    method AssembleMessage(args: seq<Entry>, defaults: Value, interceptor: Value) returns (r: Result<Mailer>)
      requires (MissingDefaults(defaults, args) || MessageArgs(args)) && ArgFormatter.MapArg(defaults)
      modifies this
      ensures templateName == old(templateName) && templateContent == old(templateContent)
      ensures async == old(async) && ipPool == old(ipPool) && sendAt == old(sendAt)
      ensures
        if MissingDefaults(defaults, args) then
          r == Err(NoMethodError) && message == old(message)
        else if BadInterceptor(interceptor) then
          r == Err(InvalidInterceptorParams) && message == Hash(MessageEntries(args, EntriesOf(defaults)))
        else
          r == Ok(this) && message == Hash(Overlay(MessageEntries(args, EntriesOf(defaults)), interceptor))
    {
      if MissingDefaults(defaults, args) {
        return Err(NoMethodError);
      }
      message := Hash(MessageEntries(args, EntriesOf(defaults)));
      if !interceptor.Nil? {
        if !interceptor.Hash? {
          return Err(InvalidInterceptorParams);
        }
        message := Hash(Merge(message.entries, interceptor.entries));
      }
      r := Ok(this);
    }
  }
}
