/**
  `MandrillMailer::TransactionalMailer`, the older template mailer.

  Its defaults and its API key are class variables (`@@defaults`, `@@api_key`):
  one pair shared by the class and every subclass, so a `default` declared in
  any mailer is seen by all of them. `mandrill_mail` fills in the template
  content, normalises `to`, and builds the whole payload of the template send
  in the instance variable `@data`, which `data` returns.

  Unlike the newer mailers, this one has its own literal defaults (the
  placeholder name "Code School Customer" for a bare recipient) and its
  `mandrill_args` has no guard for nil: a call without `vars` fails.
 */
module TransactionalMailer {
  import opened Ruby
  import ArgFormatter
  import CoreMailer
  import TemplateMailer

  // ---------------------------------------------------------------------------
  // Recipients

  /** The name a recipient given as a bare address gets. */
  const PlaceholderName: Value := Str("Code School Customer")

  /** `to_params_item(item)`: a Hash passes through, anything else is an address with the placeholder name. */
  function ToParamsItem(item: Value): (r: Value)
    ensures r.Hash?
    ensures item.Hash? ==> r == item
  {
    if !item.Hash? then Hash([Entry(Str("email"), item), Entry(Str("name"), PlaceholderName)]) else item
  }

  /** A bare address becomes the hash with exactly the keys email (the address) and name (the placeholder). */
  lemma BareRecipient(item: Value)
    requires !item.Hash?
    ensures var r := ToParamsItem(item).entries;
      Keys(r) == [Str("email"), Str("name")] && At(r, "email") == item && At(r, "name") == PlaceholderName
  {
    LookupPair(Str("email"), item, Str("name"), PlaceholderName);
  }

  /** The recipient hash keeps the address, as the other mailers' do, but names it with the placeholder. */
  lemma BareRecipientAgainstParamsItem(item: Value)
    requires !item.Hash?
    ensures At(ToParamsItem(item).entries, "email") == At(ArgFormatter.ParamsItem(item).entries, "email")
    ensures At(ToParamsItem(item).entries, "name") == PlaceholderName
    ensures At(ArgFormatter.ParamsItem(item).entries, "name") == item
  {
    BareRecipient(item);
    LookupPair(Str("email"), item, Str("name"), item);
  }

  /** `format_to_params(to_params)`: an Array item by item, anything else as a one-item list. */
  function FormatToParams(to: Value): (r: Value)
    ensures r.Arr? && ArgFormatter.RecipientHashes(r.items)
    ensures to.Arr? ==>
      |r.items| == |to.items| &&
      forall i :: 0 <= i < |to.items| ==> r.items[i] == ToParamsItem(to.items[i])
    ensures !to.Arr? ==> r.items == [ToParamsItem(to)]
  {
    if to.Arr? then Arr(seq(|to.items|, i requires 0 <= i < |to.items| => ToParamsItem(to.items[i])))
    else Arr([ToParamsItem(to)])
  }

  /** Normalising twice is normalising once: what `format_to_params` returns is a list of recipient hashes. */
  lemma FormatToParamsIdempotent(to: Value)
    ensures FormatToParams(FormatToParams(to)) == FormatToParams(to)
  {
    var r := FormatToParams(to);
    assert forall i :: 0 <= i < |r.items| ==> r.items[i].Hash?;
    assert FormatToParams(r).items == r.items;
  }

  /** A list of recipient hashes is normalised the same here as by the other mailers. */
  lemma HashRecipientsAgree(to: Value)
    requires to.Arr? && ArgFormatter.RecipientHashes(to.items)
    ensures FormatToParams(to) == ArgFormatter.Params(to) == to
  {
    assert FormatToParams(to).items == to.items;
    assert ArgFormatter.Params(to).items == to.items;
  }

  // ---------------------------------------------------------------------------
  // Name/content lists

  /**
    How a block `|k, v|` receives one item of an Array: an Array item is spread
    over `k` and `v` (nil for what it lacks), anything else is `k` with `v` nil.
   */
  function Splat(x: Value): (e: Entry)
    ensures x.Arr? && |x.items| == 2 ==> e == Entry(x.items[0], x.items[1])
    ensures !x.Arr? ==> e == Entry(x, Nil)
  {
    if x.Arr? then Entry(if |x.items| > 0 then x.items[0] else Nil, if |x.items| > 1 then x.items[1] else Nil)
    else Entry(x, Nil)
  }

  /**
    `mandrill_args(args)`: `args.map { |k, v| {'name' => k, 'content' => v} }`.
    Only a Hash and an Array have `map`; anything else, nil included, raises
    `NoMethodError`.
   */
  function MandrillArgs(v: Value): (r: Result<Value>)
    ensures r.Ok? <==> v.Hash? || v.Arr?
    ensures r.Err? ==> r.error == NoMethodError
    ensures v.Hash? ==> r.value == ArgFormatter.MandrillArgs(v)
    ensures v.Arr? ==> r.value.Arr? && |r.value.items| == |v.items|
  {
    if v.Hash? then
      var r := seq(|v.entries|, i requires 0 <= i < |v.entries| =>
        ArgFormatter.NameContent(v.entries[i].key, v.entries[i].val));
      assert r == ArgFormatter.MandrillArgs(v).items;
      Ok(Arr(r))
    else if v.Arr? then
      Ok(Arr(seq(|v.items|, i requires 0 <= i < |v.items| =>
        ArgFormatter.NameContent(Splat(v.items[i]).key, Splat(v.items[i]).val))))
    else Err(NoMethodError)
  }

  /** The name/content list of a Hash reads back as the Hash. */
  lemma MandrillArgsRoundTrip(h: seq<Entry>)
    ensures MandrillArgs(Hash(h)).Ok?
    ensures ArgFormatter.RecipientHashes(MandrillArgs(Hash(h)).value.items)
    ensures ArgFormatter.Unpair(MandrillArgs(Hash(h)).value.items) == h
  {
    ArgFormatter.MandrillArgsRoundTrip(h);
  }

  /** An Array of `[name, content]` pairs is listed as the Hash of those pairs would be. */
  lemma PairsAsHash(items: seq<Value>)
    requires forall i :: 0 <= i < |items| ==> items[i].Arr? && |items[i].items| == 2
    ensures var h := seq(|items|, i requires 0 <= i < |items| => Entry(items[i].items[0], items[i].items[1]));
      MandrillArgs(Arr(items)) == MandrillArgs(Hash(h))
  {
    var h := seq(|items|, i requires 0 <= i < |items| => Entry(items[i].items[0], items[i].items[1]));
    var r := MandrillArgs(Arr(items)).value.items;
    var s := MandrillArgs(Hash(h)).value.items;
    assert |r| == |s|;
    forall i | 0 <= i < |r| ensures r[i] == s[i] {
      assert Splat(items[i]) == h[i];
    }
    assert r == s;
  }

  /** Where the other mailers list no merge data for nil, this one raises. */
  lemma NoNilGuard()
    ensures MandrillArgs(Nil) == Err(NoMethodError)
    ensures CoreMailer.MandrillArgs(Nil) == Arr([])
  {
  }

  // ---------------------------------------------------------------------------
  // The class variables

  /**
    `@@defaults ||= {}; @@defaults[:from] ||= 'example@email.com'; @@defaults.merge!(args)`,
    given the variable before (`None` when never assigned).
   */
  function DeclaredDefaults(prior: Option<seq<Entry>>, args: seq<Entry>): seq<Entry> {
    CoreMailer.DeclareDefaults(if prior.Some? then Hash(prior.value) else Nil, args)
  }

  /**
    After `default(args)` a key given in `args` has the value given there;
    `from` otherwise keeps an earlier truthy sender or becomes
    "example@email.com"; every other key keeps its earlier value, if any.
   */
  lemma DeclaredDefaultsLookup(prior: Option<seq<Entry>>, args: seq<Entry>, q: Value)
    requires UniqueKeys(args)
    ensures var d := DeclaredDefaults(prior, args);
      var before := if prior.Some? then prior.value else [];
      (HasKey(args, q) ==> Lookup(d, q) == Lookup(args, q)) &&
      (!HasKey(args, q) && q == Str("from") ==>
        Lookup(d, q) == (if Truthy(At(before, "from")) then At(before, "from") else CoreMailer.FallbackFrom)) &&
      (!HasKey(args, q) && q != Str("from") ==> Lookup(d, q) == Lookup(before, q))
  {
    CoreMailer.DeclareDefaultsLookup(if prior.Some? then Hash(prior.value) else Nil, args, q);
    if prior.None? && !HasKey(args, q) && q != Str("from") {
      LookupMissing([], q);
    }
  }

  /** `@@api_key || ''`; reading `@@api_key` before it is assigned raises `NameError`. */
  function ApiKeyOf(key: Option<Value>): (r: Result<Value>)
    ensures r.Err? <==> key.None?
    ensures r.Err? ==> r.error == NameError
    ensures r.Ok? ==> Truthy(r.value) || r.value == Str("")
    ensures key.Some? && Truthy(key.value) ==> r.value == key.value
  {
    if key.None? then Err(NameError) else Ok(Or(key.value, Str("")))
  }

  /**
    The class variables `@@defaults` and `@@api_key`: one object for the
    class and all its subclasses. `None` stands for a variable never assigned.
   */
  class SharedState {
    var defaults: Option<seq<Entry>>
    var apiKey: Option<Value>

    constructor ()
      ensures defaults == None && apiKey == None
    {
      defaults := None;
      apiKey := None;
    }

    /** `self.default(args)`: seed the sender, merge in `args`, return the shared defaults. */
    method Default(args: seq<Entry>) returns (r: seq<Entry>)
      modifies this
      ensures defaults == Some(DeclaredDefaults(old(defaults), args))
      ensures r == defaults.value
      ensures apiKey == old(apiKey)
    {
      if defaults.None? {
        defaults := Some([]);
      }
      if !Truthy(At(defaults.value, "from")) {
        defaults := Some(Store(defaults.value, Str("from"), CoreMailer.FallbackFrom));
      }
      defaults := Some(Merge(defaults.value, args));
      r := defaults.value;
    }

    /** `self.api_key = key` */
    method SetApiKey(key: Value) returns (r: Value)
      modifies this
      ensures apiKey == Some(key) && r == key
      ensures defaults == old(defaults)
    {
      apiKey := Some(key);
      r := key;
    }

    /** `api_key`: `NameError` until `@@api_key` is assigned, then the key, or "" for a falsy one. */
    function ApiKey(): (r: Result<Value>)
      reads this
      ensures r.Err? <==> apiKey.None?
      ensures r.Err? ==> r.error == NameError
      ensures apiKey.Some? && Truthy(apiKey.value) ==> r == Ok(apiKey.value)
      ensures apiKey.Some? && !Truthy(apiKey.value) ==> r == Ok(Str(""))
    {
      ApiKeyOf(apiKey)
    }
  }

  /** Once a truthy key is set it is the one read; a nil key reads as the empty string. */
  lemma ApiKeySetThenRead(key: Value)
    ensures Truthy(key) ==> ApiKeyOf(Some(key)) == Ok(key)
    ensures !Truthy(key) ==> ApiKeyOf(Some(key)) == Ok(Str(""))
  {
  }

  // ---------------------------------------------------------------------------
  // Preparing the arguments

  /** `args[:template_content] = {"blank" => ""} if ...blank?; args[:to] = format_to_params(args[:to])` */
  function Prepared(a: seq<Entry>): seq<Entry> {
    var a1 := TemplateMailer.WithContent(a);
    Store(a1, Str("to"), FormatToParams(At(a1, "to")))
  }

  /** After the preparation `to` is normalised, blank template content is replaced, and the rest is unchanged. */
  lemma PreparedLookup(a0: seq<Entry>, q: Value)
    ensures var p := Prepared(a0);
      At(p, "to") == FormatToParams(At(a0, "to")) &&
      At(p, "template_content") ==
        (if Blank(At(a0, "template_content")) then TemplateMailer.BlankContent else At(a0, "template_content")) &&
      (q != Str("to") && q != Str("template_content") ==> Lookup(p, q) == Lookup(a0, q))
  {
    var a1 := TemplateMailer.WithContent(a0);
    var to := FormatToParams(At(a1, "to"));
    StoreLookup(a0, Str("template_content"), TemplateMailer.BlankContent, q);
    StoreLookup(a0, Str("template_content"), TemplateMailer.BlankContent, Str("to"));
    StoreLookup(a0, Str("template_content"), TemplateMailer.BlankContent, Str("template_content"));
    StoreLookup(a1, Str("to"), to, q);
    StoreLookup(a1, Str("to"), to, Str("to"));
    StoreLookup(a1, Str("to"), to, Str("template_content"));
  }

  lemma PreparedKeeps(a0: seq<Entry>, key: string)
    requires key != "to" && key != "template_content"
    ensures At(Prepared(a0), key) == At(a0, key)
  {
    PreparedLookup(a0, Str(key));
  }

  // ---------------------------------------------------------------------------
  // The message

  /** The keys of the message, in the order the literal writes them. */
  const MessageKeys: seq<Value> := [
    Str("subject"), Str("from_email"), Str("from_name"), Str("to"), Str("headers"), Str("track_opens"),
    Str("track_clicks"), Str("auto_text"), Str("url_strip_qs"), Str("bcc_address"), Str("global_merge_vars"),
    Str("tags"), Str("google_analytics_domains"), Str("google_analytics_campaign")]

  /**
    The value the message literal gives `key`, `d` being `@@defaults` and `vars`
    the converted merge variables; nil for keys the literal does not write.
   */
  function MessageValue(args: seq<Entry>, d: seq<Entry>, vars: Value, key: string): Value {
    match key
    case "subject" => At(args, "subject")
    case "from_email" => Or(At(args, "from"), At(d, "from"))
    case "from_name" => Or(At(args, "from_name"), At(d, "from"))
    case "to" => At(args, "to")
    case "headers" => At(args, "headers")
    case "track_opens" => Bool(true)
    case "track_clicks" => Bool(true)
    case "auto_text" => Bool(true)
    case "url_strip_qs" => Bool(true)
    case "bcc_address" => At(args, "bcc")
    case "global_merge_vars" => vars
    case "tags" => At(args, "tags")
    case "google_analytics_domains" => At(args, "google_analytics_domains")
    case "google_analytics_campaign" => At(args, "google_analytics_campaign")
    case _ => Nil
  }

  /** The message literal: every key of `MessageKeys`, in order, with its value. */
  function MessageEntries(args: seq<Entry>, d: seq<Entry>, vars: Value): (m: seq<Entry>)
    ensures Keys(m) == MessageKeys
  {
    seq(|MessageKeys|, i requires 0 <= i < |MessageKeys| => Entry(MessageKeys[i], MessageValue(args, d, vars, MessageKeys[i].s)))
  }

  lemma MessageKeysDistinct()
    ensures Distinct(MessageKeys)
  {
    KeysDistinctFirstHalf();
    KeysDistinctSecondHalf();
    KeysDistinctAcross();
  }

  lemma KeysDistinctFirstHalf()
    ensures forall i, j :: 0 <= i < j < 7 ==> MessageKeys[i] != MessageKeys[j]
  {
  }

  lemma KeysDistinctSecondHalf()
    ensures forall i, j :: 7 <= i < j < 14 ==> MessageKeys[i] != MessageKeys[j]
  {
  }

  lemma KeysDistinctAcross()
    ensures forall i, j :: 0 <= i < 7 <= j < 14 ==> MessageKeys[i] != MessageKeys[j]
  {
  }

  /** Looking a key up in the message finds the value the literal gives it. */
  lemma MessageLookup(args: seq<Entry>, d: seq<Entry>, vars: Value, key: string)
    ensures At(MessageEntries(args, d, vars), key) == MessageValue(args, d, vars, key)
  {
    var m := MessageEntries(args, d, vars);
    if Str(key) in MessageKeys {
      var i :| 0 <= i < |MessageKeys| && MessageKeys[i] == Str(key);
      MessageKeysDistinct();
      LookupFirst(m, i);
    } else {
      assert !HasKey(m, Str(key)) by {
        forall i | 0 <= i < |m| ensures m[i].key != Str(key) {
          assert m[i].key == MessageKeys[i];
        }
      }
      LookupMissing(m, Str(key));
    }
  }

  /**
    The sender: `from_email` is the caller's `from`, else the defaults' `from`;
    `from_name` is the caller's `from_name`, else again the defaults' `from`
    (a `from_name` in the defaults is never read).
   */
  lemma MessageSender(args: seq<Entry>, d: seq<Entry>, vars: Value)
    ensures var m := MessageEntries(args, d, vars);
      At(m, "from_email") == (if Truthy(At(args, "from")) then At(args, "from") else At(d, "from")) &&
      At(m, "from_name") == (if Truthy(At(args, "from_name")) then At(args, "from_name") else At(d, "from"))
  {
    MessageLookup(args, d, vars, "from_email");
    MessageLookup(args, d, vars, "from_name");
  }

  /** The four tracking flags are true whatever the caller passes. */
  lemma MessageFlags(args: seq<Entry>, d: seq<Entry>, vars: Value, flag: string)
    requires flag == "track_opens" || flag == "track_clicks" || flag == "auto_text" || flag == "url_strip_qs"
    ensures At(MessageEntries(args, d, vars), flag) == Bool(true)
  {
    MessageLookup(args, d, vars, flag);
  }

  /** The caller's values the message carries under their own names (and `bcc` as `bcc_address`). */
  lemma MessagePassThrough(args: seq<Entry>, d: seq<Entry>, vars: Value)
    ensures var m := MessageEntries(args, d, vars);
      At(m, "subject") == At(args, "subject") && At(m, "to") == At(args, "to") &&
      At(m, "headers") == At(args, "headers") && At(m, "bcc_address") == At(args, "bcc") &&
      At(m, "tags") == At(args, "tags") &&
      At(m, "google_analytics_domains") == At(args, "google_analytics_domains") &&
      At(m, "google_analytics_campaign") == At(args, "google_analytics_campaign")
  {
    MessageLookup(args, d, vars, "subject");
    MessageLookup(args, d, vars, "to");
    MessageLookup(args, d, vars, "headers");
    MessageLookup(args, d, vars, "bcc_address");
    MessageLookup(args, d, vars, "tags");
    MessageLookup(args, d, vars, "google_analytics_domains");
    MessageLookup(args, d, vars, "google_analytics_campaign");
  }

  /** The message has no `merge_vars`, `metadata` or `attachments`: the literal leaves them out. */
  lemma MessageOmits(args: seq<Entry>, d: seq<Entry>, vars: Value)
    ensures var m := MessageEntries(args, d, vars);
      !HasKey(m, Str("merge_vars")) && !HasKey(m, Str("metadata")) && !HasKey(m, Str("attachments")) &&
      At(m, "global_merge_vars") == vars
  {
    var m := MessageEntries(args, d, vars);
    forall i | 0 <= i < |m|
      ensures m[i].key != Str("merge_vars") && m[i].key != Str("metadata") && m[i].key != Str("attachments")
    {
      assert m[i].key == MessageKeys[i];
    }
    MessageLookup(args, d, vars, "global_merge_vars");
  }

  // ---------------------------------------------------------------------------
  // The payload

  /** The keys of `@data`, in order. */
  const DataKeys: seq<Value> := [Str("key"), Str("template_name"), Str("template_content"), Str("message")]

  function DataEntries(key: Value, name: Value, content: Value, message: Value): (h: seq<Entry>)
    ensures Keys(h) == DataKeys
  {
    [Entry(Str("key"), key), Entry(Str("template_name"), name), Entry(Str("template_content"), content),
     Entry(Str("message"), message)]
  }

  /** `@data` has exactly its four keys, each holding the value given for it. */
  lemma DataEntriesLookup(key: Value, name: Value, content: Value, message: Value)
    ensures var h := DataEntries(key, name, content, message);
      At(h, "key") == key && At(h, "template_name") == name && At(h, "template_content") == content &&
      At(h, "message") == message
  {
    var h := DataEntries(key, name, content, message);
    LookupFirst(h, 1);
    LookupFirst(h, 2);
    LookupFirst(h, 3);
  }

  /** The defaults the literal reads, or nothing when `@@defaults` was never assigned. */
  function EntriesOf(defaults: Option<seq<Entry>>): seq<Entry> {
    if defaults.Some? then defaults.value else []
  }

  /**
    The `@data` literal over the prepared arguments, evaluated in order: the
    API key (`NameError` when never set), the template content (`NoMethodError`
    when it has no `map`), the sender (`NameError` when it falls back on
    `@@defaults` never assigned), then the merge variables (`NoMethodError`
    when they have no `map`, nil included).
   */
  function BuildData(a: seq<Entry>, defaults: Option<seq<Entry>>, apiKey: Option<Value>): (r: Result<Value>)
    ensures r.Ok? ==> r.value.Hash? && Keys(r.value.entries) == DataKeys
  {
    var key := ApiKeyOf(apiKey);
    if key.Err? then Err(key.error)
    else
      var content := MandrillArgs(At(a, "template_content"));
      if content.Err? then Err(content.error)
      else if defaults.None? && TemplateMailer.NeedsDefaults(a) then Err(NameError)
      else
        var vars := MandrillArgs(At(a, "vars"));
        if vars.Err? then Err(vars.error)
        else
          var message := Hash(MessageEntries(a, EntriesOf(defaults), vars.value));
          Ok(Hash(DataEntries(key.value, At(a, "template"), content.value, message)))
  }

  /** Values `mandrill_args` can list. */
  predicate Listable(v: Value) {
    v.Hash? || v.Arr?
  }

  /**
    When `mandrill_mail` fails, in terms of the caller's arguments: it succeeds
    exactly when the API key is set, the template content is blank or
    listable, the sender needs no unset defaults, and `vars` is listable; the
    first of these to fail decides the exception.
   */
  lemma DataOutcome(a0: seq<Entry>, defaults: Option<seq<Entry>>, apiKey: Option<Value>)
    ensures var r := BuildData(Prepared(a0), defaults, apiKey);
      var content := At(a0, "template_content");
      var senderFails := defaults.None? && TemplateMailer.NeedsDefaults(a0);
      (r.Ok? <==> apiKey.Some? && (Blank(content) || Listable(content)) && !senderFails && Listable(At(a0, "vars"))) &&
      (apiKey.None? ==> r == Err(NameError)) &&
      (apiKey.Some? && !Blank(content) && !Listable(content) ==> r == Err(NoMethodError)) &&
      (apiKey.Some? && (Blank(content) || Listable(content)) && senderFails ==> r == Err(NameError)) &&
      (apiKey.Some? && (Blank(content) || Listable(content)) && !senderFails && !Listable(At(a0, "vars")) ==>
        r == Err(NoMethodError))
  {
    PreparedLookup(a0, Str("vars"));
    PreparedKeeps(a0, "from");
    PreparedKeeps(a0, "from_name");
  }

  /** A call without `vars` fails even when everything else is in order. */
  lemma MissingVarsFail(a0: seq<Entry>, defaults: Option<seq<Entry>>, key: Value)
    requires !HasKey(a0, Str("vars")) && Blank(At(a0, "template_content")) && defaults.Some?
    ensures BuildData(Prepared(a0), defaults, Some(key)) == Err(NoMethodError)
  {
    LookupMissing(a0, Str("vars"));
    DataOutcome(a0, defaults, Some(key));
  }

  /** The converted template content: `[{"name" => "blank", "content" => ""}]` for blank content. */
  lemma BlankTemplateContent(a0: seq<Entry>)
    requires Blank(At(a0, "template_content"))
    ensures MandrillArgs(At(Prepared(a0), "template_content")) ==
      Ok(Arr([ArgFormatter.NameContent(Str("blank"), Str(""))]))
  {
    PreparedLookup(a0, Str("template_content"));
    var c := TemplateMailer.BlankContent;
    assert MandrillArgs(c).value.items == [ArgFormatter.NameContent(Str("blank"), Str(""))];
  }

  /**
    The payload of a successful call: the API key read, the caller's
    template, the converted template content, and the message, whose
    recipients are the caller's `to` normalised and whose merge variables are
    the caller's `vars` listed.
   */
  lemma DataFields(a0: seq<Entry>, defaults: Option<seq<Entry>>, apiKey: Option<Value>)
    requires BuildData(Prepared(a0), defaults, apiKey).Ok?
    ensures Listable(At(a0, "vars"))
    ensures var p := Prepared(a0);
      var h := BuildData(p, defaults, apiKey).value.entries;
      At(h, "key") == ApiKeyOf(apiKey).value &&
      At(h, "template_name") == At(a0, "template") &&
      At(h, "template_content") == MandrillArgs(At(p, "template_content")).value &&
      At(h, "message") == Hash(MessageEntries(p, EntriesOf(defaults), MandrillArgs(At(a0, "vars")).value)) &&
      At(p, "to") == FormatToParams(At(a0, "to"))
  {
    var p := Prepared(a0);
    DataOutcome(a0, defaults, apiKey);
    PreparedKeeps(a0, "template");
    PreparedLookup(a0, Str("vars"));
    var key := ApiKeyOf(apiKey).value;
    var content := MandrillArgs(At(p, "template_content")).value;
    var vars := MandrillArgs(At(p, "vars")).value;
    var message := Hash(MessageEntries(p, EntriesOf(defaults), vars));
    DataEntriesLookup(key, At(p, "template"), content, message);
  }

  /**
    The message's sender in terms of the caller's arguments: `from_email`
    falls back on the defaults' `from`, and so does `from_name`.
   */
  lemma DataSender(a0: seq<Entry>, d: seq<Entry>, vars: Value)
    ensures var m := MessageEntries(Prepared(a0), d, vars);
      At(m, "from_email") == (if Truthy(At(a0, "from")) then At(a0, "from") else At(d, "from")) &&
      At(m, "from_name") == (if Truthy(At(a0, "from_name")) then At(a0, "from_name") else At(d, "from"))
  {
    PreparedKeeps(a0, "from");
    PreparedKeeps(a0, "from_name");
    MessageSender(Prepared(a0), d, vars);
  }

  // ---------------------------------------------------------------------------
  // The mailer

  class Mailer {
    /** `@data`, nil until `mandrill_mail` succeeds. */
    var data: Value

    constructor ()
      ensures data == Nil && Valid()
    {
      data := Nil;
    }

    /** `@data` is nil or a payload with the four keys. */
    predicate Valid()
      reads this
    {
      data.Nil? || (data.Hash? && Keys(data.entries) == DataKeys)
    }

    /** `data`: nil before a successful `mandrill_mail`, a payload with the four keys after. */
    function Data(): (r: Value)
      requires Valid()
      reads this
      ensures r.Nil? || (r.Hash? && Keys(r.entries) == DataKeys)
    {
      data
    }

    /**
      `mandrill_mail(args)`: the caller's hash is prepared in place, then
      `@data` is built from it and `self` returned. An exception raised while
      the literal is evaluated leaves `@data` as it was.
     */
    method MandrillMail(args: HashRef, shared: SharedState) returns (r: Result<Mailer>)
      requires Valid()
      modifies this, args
      ensures Valid()
      ensures args.entries == Prepared(old(args.entries))
      ensures var d := BuildData(Prepared(old(args.entries)), shared.defaults, shared.apiKey);
        (d.Ok? ==> r == Ok(this) && Data() == d.value) &&
        (d.Err? ==> r == Err(d.error) && data == old(data))
    {
      if Blank(args.Get(Str("template_content"))) {
        args.Put(Str("template_content"), TemplateMailer.BlankContent);
      }
      args.Put(Str("to"), FormatToParams(args.Get(Str("to"))));
      var d := BuildData(args.entries, shared.defaults, shared.apiKey);
      if d.Err? {
        return Err(d.error);
      }
      data := d.value;
      r := Ok(this);
    }
  }
}
