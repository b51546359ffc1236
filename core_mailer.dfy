/**
  `MandrillMailer::CoreMailer`, the base class of the mailers.

  At class level it keeps `@defaults`, declared with `default from: ...` and
  otherwise inherited from the nearest superclass that has some. An instance
  holds the message it last built together with `async`, `ip_pool` and
  `send_at`; `deliver`, `mandrill_mail`, `data` and `check_required_options`
  are left to the subclasses and raise here. The protected helpers format
  recipients, variables and attachments the way the Mandrill API expects.
 */
module CoreMailer {
  import opened Ruby
  import opened Base64
  import ArgFormatter

  // ---------------------------------------------------------------------------
  // Class-level defaults

  /** Mailer classes are numbered; class 0 is `CoreMailer` itself. */
  type ClassId = nat

  /** The sender `default` puts in when a class declares none. */
  const FallbackFrom: Value := Str("example@email.com")

  /** A superclass table: every class but `CoreMailer` has a superclass declared before it. */
  predicate Hierarchy(sup: seq<ClassId>) {
    |sup| > 0 && forall c :: 0 < c < |sup| ==> sup[c] < c
  }

  /**
    `c.defaults`: the class's own `@defaults` when truthy, else
    `super_defaults`, which asks the superclass; the superclass of `CoreMailer`
    (`Object`) answers nothing, so the chain ends in nil.
   */
  function Resolve(sup: seq<ClassId>, own: seq<Value>, c: ClassId): Value
    requires Hierarchy(sup) && |own| == |sup| && c < |sup|
    decreases c
  {
    if Truthy(own[c]) then own[c]
    else if c == 0 then Nil
    else Resolve(sup, own, sup[c])
  }

  /** `c`, its superclass, that one's superclass, and so on up to `CoreMailer`. */
  function Chain(sup: seq<ClassId>, c: ClassId): (r: seq<ClassId>)
    requires Hierarchy(sup) && c < |sup|
    ensures |r| > 0 && r[0] == c && r[|r| - 1] == 0
    ensures forall i :: 0 <= i < |r| ==> r[i] <= c
    ensures forall i :: 0 < i < |r| ==> r[i] == sup[r[i - 1]]
    decreases c
  {
    if c == 0 then [0] else [c] + Chain(sup, sup[c])
  }

  /** No class of `ch` has truthy `@defaults`. */
  predicate NoneDeclared(own: seq<Value>, ch: seq<ClassId>) {
    forall i :: 0 <= i < |ch| ==> ch[i] < |own| ==> !Truthy(own[ch[i]])
  }

  /** The first `k` classes of `ch` have no truthy `@defaults`, and the `k`-th has. */
  predicate FirstDeclared(own: seq<Value>, ch: seq<ClassId>, k: nat) {
    k < |ch| && ch[k] < |own| && Truthy(own[ch[k]]) && NoneDeclared(own, ch[..k])
  }

  lemma NoneDeclaredCons(own: seq<Value>, c: ClassId, rest: seq<ClassId>)
    requires c < |own|
    ensures NoneDeclared(own, [c] + rest) <==> !Truthy(own[c]) && NoneDeclared(own, rest)
  {
    var ch := [c] + rest;
    if !Truthy(own[c]) && NoneDeclared(own, rest) {
      forall i | 0 <= i < |ch| && ch[i] < |own| ensures !Truthy(own[ch[i]]) {
        if i > 0 { assert ch[i] == rest[i - 1]; }
      }
    }
    if NoneDeclared(own, ch) {
      assert ch[0] == c;
      forall i | 0 <= i < |rest| && rest[i] < |own| ensures !Truthy(own[rest[i]]) {
        assert ch[i + 1] == rest[i];
      }
    }
  }

  /**
    `defaults` is the `@defaults` of the nearest class on the chain that has
    truthy ones, and nil exactly when no class on the chain has any.
   */
  lemma {:induction false} ResolveNearest(sup: seq<ClassId>, own: seq<Value>, c: ClassId)
    requires Hierarchy(sup) && |own| == |sup| && c < |sup|
    ensures Resolve(sup, own, c) == Nil <==> NoneDeclared(own, Chain(sup, c))
    ensures Resolve(sup, own, c) != Nil ==>
      exists k: nat :: FirstDeclared(own, Chain(sup, c), k) && Resolve(sup, own, c) == own[Chain(sup, c)[k]]
    decreases c
  {
    var ch := Chain(sup, c);
    if Truthy(own[c]) {
      assert !NoneDeclared(own, ch) by {
        assert ch[0] == c;
      }
      assert ch[..0] == [];
      assert FirstDeclared(own, ch, 0);
    } else if c == 0 {
      assert ch == [0];
    } else {
      var rest := Chain(sup, sup[c]);
      assert ch == [c] + rest;
      ResolveNearest(sup, own, sup[c]);
      NoneDeclaredCons(own, c, rest);
      if Resolve(sup, own, c) != Nil {
        var k: nat :| FirstDeclared(own, rest, k) && Resolve(sup, own, sup[c]) == own[rest[k]];
        assert ch[k + 1] == rest[k];
        assert ch[..k + 1] == [c] + rest[..k];
        NoneDeclaredCons(own, c, rest[..k]);
        assert FirstDeclared(own, ch, k + 1);
      }
    }
  }

  /** Changing the `@defaults` of a class off the chain of `c` does not change what `c` sees. */
  lemma {:induction false} DeclarationIsolated(sup: seq<ClassId>, own: seq<Value>, c: ClassId, b: ClassId, x: Value)
    requires Hierarchy(sup) && |own| == |sup| && c < |sup| && b < |sup|
    requires b !in Chain(sup, c)
    ensures Resolve(sup, own[b := x], c) == Resolve(sup, own, c)
    decreases c
  {
    assert Chain(sup, c)[0] == c;
    if c > 0 {
      assert Chain(sup, c) == [c] + Chain(sup, sup[c]);
      DeclarationIsolated(sup, own, sup[c], b, x);
    }
  }

  /** A declaration in a subclass leaves its superclasses' defaults alone. */
  lemma ParentUnaffected(sup: seq<ClassId>, own: seq<Value>, p: ClassId, b: ClassId, x: Value)
    requires Hierarchy(sup) && |own| == |sup| && p < b < |sup|
    ensures Resolve(sup, own[b := x], p) == Resolve(sup, own, p)
  {
    DeclarationIsolated(sup, own, p, b, x);
  }

  /** A declaration in one class leaves a sibling class's defaults alone. */
  lemma SiblingUnaffected(sup: seq<ClassId>, own: seq<Value>, a: ClassId, b: ClassId, x: Value)
    requires Hierarchy(sup) && |own| == |sup| && 0 < a < |sup| && 0 < b < |sup|
    requires a != b && sup[a] == sup[b]
    ensures Resolve(sup, own[b := x], a) == Resolve(sup, own, a)
  {
    assert Chain(sup, a) == [a] + Chain(sup, sup[a]);
    DeclarationIsolated(sup, own, a, b, x);
  }

  /** Adding a new class with no defaults of its own changes nothing for the existing classes. */
  lemma {:induction false} SubclassAddsNothing(sup: seq<ClassId>, own: seq<Value>, parent: ClassId, c: ClassId)
    requires Hierarchy(sup) && |own| == |sup| && parent < |sup| && c < |sup|
    ensures Hierarchy(sup + [parent])
    ensures Resolve(sup + [parent], own + [Nil], c) == Resolve(sup, own, c)
    decreases c
  {
    if c > 0 && !Truthy(own[c]) {
      SubclassAddsNothing(sup, own, parent, sup[c]);
    }
  }

  /** `@defaults ||= {}` followed by `@defaults[:from] ||= 'example@email.com'`. */
  function SeedDefaults(prior: Value): seq<Entry>
    requires ArgFormatter.MapArg(prior)
  {
    var h := if Truthy(prior) then prior.entries else [];
    if Truthy(At(h, "from")) then h else Store(h, Str("from"), FallbackFrom)
  }

  /** The `@defaults` of a class after `default(args)`, given the class's own `@defaults` before. */
  function DeclareDefaults(prior: Value, args: seq<Entry>): seq<Entry>
    requires ArgFormatter.MapArg(prior)
  {
    Merge(SeedDefaults(prior), args)
  }

  /**
    After `default(args)` a key given in `args` has the value given there;
    `from` otherwise keeps an earlier truthy sender or becomes the fallback;
    every other key keeps the class's own earlier value. A class declaring for
    the first time starts from an empty hash: what it inherited is not copied.
   */
  lemma DeclareDefaultsLookup(prior: Value, args: seq<Entry>, q: Value)
    requires ArgFormatter.MapArg(prior) && UniqueKeys(args)
    ensures var d := DeclareDefaults(prior, args);
      (HasKey(args, q) ==> Lookup(d, q) == Lookup(args, q)) &&
      (!HasKey(args, q) && q == Str("from") ==>
        Lookup(d, q) == (if Truthy(prior) && Truthy(At(prior.entries, "from")) then At(prior.entries, "from")
                         else FallbackFrom)) &&
      (!HasKey(args, q) && q != Str("from") && Truthy(prior) ==> Lookup(d, q) == Lookup(prior.entries, q)) &&
      (!HasKey(args, q) && q != Str("from") && !Truthy(prior) ==> Lookup(d, q) == Nil)
  {
    var h := if Truthy(prior) then prior.entries else [];
    MergeLookup(SeedDefaults(prior), args, q);
    StoreLookup(h, Str("from"), FallbackFrom, q);
  }

  /** The keys after `default(args)`: `from`, those given, and the class's own earlier ones. */
  lemma DeclareDefaultsHasKey(prior: Value, args: seq<Entry>, q: Value)
    requires ArgFormatter.MapArg(prior)
    ensures HasKey(DeclareDefaults(prior, args), q) <==>
      q == Str("from") || HasKey(args, q) || (Truthy(prior) && HasKey(prior.entries, q))
  {
    var h := if Truthy(prior) then prior.entries else [];
    MergeHasKey(SeedDefaults(prior), args, q);
    StoreHasKey(h, Str("from"), FallbackFrom, q);
    if Truthy(At(h, "from")) && q == Str("from") {
      if !HasKey(h, q) {
        LookupMissing(h, q);
      }
    }
  }

  /** The class table of `CoreMailer` and the subclasses that keep its `defaults`. */
  class MailerClasses {
    var superclass: seq<ClassId>
    var own: seq<Value>

    predicate Valid()
      reads this
    {
      Hierarchy(superclass) && |own| == |superclass|
    }

    /** Only `CoreMailer`, which has declared no defaults. */
    constructor ()
      ensures Valid() && superclass == [0] && own == [Nil]
    {
      superclass := [0];
      own := [Nil];
    }

    /**
      `CoreMailer.defaults` for class `c`: nil when no class on its chain has
      declared any, otherwise the declaration of the nearest one that has.
     */
    function Defaults(c: ClassId): (r: Value)
      requires Valid() && c < |own|
      reads this
      ensures r == Nil <==> NoneDeclared(own, Chain(superclass, c))
      ensures r != Nil ==>
        exists k: nat :: FirstDeclared(own, Chain(superclass, c), k) && r == own[Chain(superclass, c)[k]]
    {
      ResolveNearest(superclass, own, c);
      Resolve(superclass, own, c)
    }

    /** `class C < P`: a new class whose defaults are, until it declares some, those of `P`. */
    method DefineSubclass(parent: ClassId) returns (c: ClassId)
      requires Valid() && parent < |own|
      modifies this
      ensures Valid() && c == |old(own)|
      ensures superclass == old(superclass) + [parent] && own == old(own) + [Nil]
      ensures Defaults(c) == Defaults(parent)
      ensures forall d :: 0 <= d < c ==> Defaults(d) == old(Resolve(superclass, own, d))
    {
      SubclassAddsNothing(superclass, own, parent, parent);
      forall d | 0 <= d < |own| ensures Resolve(superclass + [parent], own + [Nil], d) == Resolve(superclass, own, d) {
        SubclassAddsNothing(superclass, own, parent, d);
      }
      c := |own|;
      superclass := superclass + [parent];
      own := own + [Nil];
    }

    /** `self.default(args)`: the three steps on the class's own `@defaults`, returning the hash. */
    method Default(c: ClassId, args: seq<Entry>) returns (r: Value)
      requires Valid() && c < |own| && ArgFormatter.MapArg(own[c])
      modifies this
      ensures Valid() && superclass == old(superclass)
      ensures own == old(own)[c := Hash(DeclareDefaults(old(own[c]), args))]
      ensures r == own[c] && Defaults(c) == r
    {
      if !Truthy(own[c]) {
        own := own[c := Hash([])];
      }
      if !Truthy(At(own[c].entries, "from")) {
        own := own[c := Hash(Store(own[c].entries, Str("from"), FallbackFrom))];
      }
      own := own[c := Hash(Merge(own[c].entries, args))];
      r := own[c];
    }

    /** `self.defaults = v` */
    method SetDefaults(c: ClassId, v: Value)
      requires Valid() && c < |own|
      modifies this
      ensures Valid() && superclass == old(superclass) && own == old(own)[c := v]
    {
      own := own[c := v];
    }
  }

  // ---------------------------------------------------------------------------
  // Formatting helpers

  /** `format_boolean(arg)`: `arg ? true : false`. */
  function FormatBoolean(v: Value): (r: Value)
    ensures r == ArgFormatter.Boolean(v)
  {
    if Truthy(v) then Bool(true) else Bool(false)
  }

  /** `to_params_item(item)`: a bare address becomes `{"email" => item, "name" => item}`; a Hash is kept. */
  function ToParamsItem(item: Value): (r: Value)
    ensures r == ArgFormatter.ParamsItem(item)
  {
    if !item.Hash? then Hash([Entry(Str("email"), item), Entry(Str("name"), item)]) else item
  }

  /** `format_to_params(to_params)`: an Array item by item, anything else as a one-item list. */
  function FormatToParams(to: Value): (r: Value)
    ensures r == ArgFormatter.Params(to)
  {
    if to.Arr? then
      var r := seq(|to.items|, i requires 0 <= i < |to.items| => ToParamsItem(to.items[i]));
      assert r == ArgFormatter.Params(to).items;
      Arr(r)
    else Arr([ToParamsItem(to)])
  }

  /** `mandrill_args(args)`: `[]` for nil, else one name/content hash per entry. */
  function MandrillArgs(v: Value): (r: Value)
    requires ArgFormatter.MapArg(v)
    ensures r == ArgFormatter.MandrillArgs(v)
  {
    if !Truthy(v) then Arr([])
    else
      var r := seq(|v.entries|, i requires 0 <= i < |v.entries| =>
        ArgFormatter.NameContent(v.entries[i].key, v.entries[i].val));
      assert r == ArgFormatter.MandrillArgs(v).items;
      Arr(r)
  }

  /**
    `mandrill_rcpt_args(args)`: one `{rcpt, vars}` per item, the recipient being
    the item's first key; `item.fetch(rcpt)` cannot miss, as `rcpt` is a key of `item`.
   */
  function MandrillRcptArgs(v: Value): (r: Value)
    requires ArgFormatter.MergeVarsArg(v)
    ensures r == ArgFormatter.MergeVars(v)
  {
    if !Truthy(v) then Arr([])
    else
      var r := seq(|v.items|, i requires 0 <= i < |v.items| =>
        var rcpt := ArgFormatter.FirstKey(v.items[i]);
        ArgFormatter.RcptHash(rcpt, "vars", MandrillArgs(Lookup(v.items[i].entries, rcpt))));
      assert r == ArgFormatter.MergeVars(v).items;
      Arr(r)
  }

  /** An attachment this formatter can handle: a Hash whose `file` or `content` is a byte string. */
  predicate AttachmentSpec(a: Value) {
    a.Hash? && ArgFormatter.RawContent(a.entries).Str? && IsByteString(ArgFormatter.RawContent(a.entries).s)
  }

  predicate AttachmentList(v: Value) {
    !Truthy(v) || (v.Arr? && forall i :: 0 <= i < |v.items| ==> AttachmentSpec(v.items[i]))
  }

  /** The block of `mandrill_attachment_args` for one attachment: the content is always encoded here. */
  function FormatAttachment(a: Value): Value
    requires AttachmentSpec(a)
  {
    var e := a.entries;
    ArgFormatter.TypeNameContent(ArgFormatter.AttachmentType(e), ArgFormatter.AttachmentName(e),
                                 Str(Encode64(BytesOf(ArgFormatter.RawContent(e).s))))
  }

  /**
    `mandrill_attachment_args(args)`: nil for nil; otherwise, per attachment, its
    type and name and the base64 of its bytes, whose decoding gives those bytes back.
   */
  function MandrillAttachmentArgs(v: Value): (r: Value)
    requires AttachmentList(v)
    ensures !Truthy(v) ==> r == Nil
    ensures Truthy(v) ==>
      r.Arr? && |r.items| == |v.items| &&
      forall i :: 0 <= i < |v.items| ==>
        var e := v.items[i].entries;
        r.items[i] == ArgFormatter.TypeNameContent(ArgFormatter.AttachmentType(e), ArgFormatter.AttachmentName(e),
                                                   Str(Encode64(BytesOf(ArgFormatter.RawContent(e).s))))
  {
    if !Truthy(v) then Nil
    else Arr(seq(|v.items|, i requires 0 <= i < |v.items| => FormatAttachment(v.items[i])))
  }

  /** `mandrill_images_args(args)`: the same as the attachments. */
  function MandrillImagesArgs(v: Value): (r: Value)
    requires AttachmentList(v)
    ensures r == MandrillAttachmentArgs(v)
  {
    if !Truthy(v) then Nil else MandrillAttachmentArgs(v)
  }

  /** The content sent for an attachment decodes back to the attachment's bytes. */
  lemma AttachmentContentDecodes(a: Value)
    requires AttachmentSpec(a)
    ensures var r := FormatAttachment(a).entries;
      Keys(r) == [Str("type"), Str("name"), Str("content")] &&
      At(r, "content").Str? && Decode64(At(r, "content").s) == BytesOf(ArgFormatter.RawContent(a.entries).s)
  {
    var e := a.entries;
    var c := Str(Encode64(BytesOf(ArgFormatter.RawContent(e).s)));
    LookupTriple(Str("type"), ArgFormatter.AttachmentType(e), Str("name"), ArgFormatter.AttachmentName(e),
                 Str("content"), c);
    RoundTrip(BytesOf(ArgFormatter.RawContent(e).s));
  }

  /**
    Without pre-encoded content the base class and `ArgFormatter` format
    attachments alike (`ArgFormatter` also accepts `encoded_file` and
    `encoded_content`, which these helpers do not look at).
   */
  lemma AttachmentsAgreeWithArgFormatter(v: Value)
    requires AttachmentList(v)
    requires v.Arr? ==> forall i :: 0 <= i < |v.items| ==> !Truthy(ArgFormatter.EncodedContent(v.items[i].entries))
    ensures ArgFormatter.AttachmentList(v)
    ensures MandrillAttachmentArgs(v) == ArgFormatter.AttachmentArgs(v)
  {
    if Truthy(v) {
      assert MandrillAttachmentArgs(v).items == ArgFormatter.AttachmentArgs(v).items;
    }
  }

  /** Pre-encoded content is ignored here: the raw bytes are encoded even when `encoded_content` is given. */
  lemma PreEncodedIgnored(t: Value, n: Value, file: string, encoded: Value)
    requires IsByteString(file) && Truthy(t) && Truthy(n) && Truthy(encoded)
    ensures var a := Hash([Entry(Str("mimetype"), t), Entry(Str("filename"), n), Entry(Str("file"), Str(file)),
                           Entry(Str("encoded_content"), encoded)]);
      AttachmentSpec(a) && ArgFormatter.AttachmentSpec(a) &&
      FormatAttachment(a) == ArgFormatter.TypeNameContent(t, n, Str(Encode64(BytesOf(file)))) &&
      ArgFormatter.FormatAttachment(a) == ArgFormatter.TypeNameContent(t, n, encoded)
  {
    var e := [Entry(Str("mimetype"), t), Entry(Str("filename"), n), Entry(Str("file"), Str(file)),
              Entry(Str("encoded_content"), encoded)];
    LookupFirst(e, 1);
    LookupFirst(e, 2);
    LookupFirst(e, 3);
    LookupMissing(e, Str("encoded_file"));
    assert At(e, "mimetype") == t && At(e, "filename") == n;
    assert At(e, "file") == Str(file) && At(e, "encoded_content") == encoded;
    assert ArgFormatter.EncodedContent(e) == encoded;
  }

  /**
    Both spellings of an attachment, `{mimetype, filename, file}` and
    `{type, name, content}`, give the same formatted attachment.
   */
  lemma AttachmentSyntaxesAgree(t: string, n: string, file: string)
    requires IsByteString(file) && |t| > 0 && |n| > 0
    ensures var fileSyntax := Hash([Entry(Str("mimetype"), Str(t)), Entry(Str("filename"), Str(n)), Entry(Str("file"), Str(file))]);
      var apiSyntax := Hash([Entry(Str("type"), Str(t)), Entry(Str("name"), Str(n)), Entry(Str("content"), Str(file))]);
      var expected := ArgFormatter.TypeNameContent(Str(t), Str(n), Str(Encode64(BytesOf(file))));
      AttachmentSpec(fileSyntax) && AttachmentSpec(apiSyntax) &&
      MandrillAttachmentArgs(Arr([fileSyntax])) == Arr([expected]) &&
      MandrillAttachmentArgs(Arr([apiSyntax])) == Arr([expected])
  {
    var f := [Entry(Str("mimetype"), Str(t)), Entry(Str("filename"), Str(n)), Entry(Str("file"), Str(file))];
    var p := [Entry(Str("type"), Str(t)), Entry(Str("name"), Str(n)), Entry(Str("content"), Str(file))];
    LookupTriple(Str("mimetype"), Str(t), Str("filename"), Str(n), Str("file"), Str(file));
    LookupTriple(Str("type"), Str(t), Str("name"), Str(n), Str("content"), Str(file));
    assert ArgFormatter.RawContent(f) == Str(file);
    assert ArgFormatter.RawContent(p) == Str(file) by {
      LookupMissing(p, Str("file"));
    }
    assert ArgFormatter.AttachmentType(p) == Str(t) by {
      LookupMissing(p, Str("mimetype"));
    }
    assert ArgFormatter.AttachmentName(p) == Str(n) by {
      LookupMissing(p, Str("filename"));
    }
    assert MandrillAttachmentArgs(Arr([Hash(f)])).items == [FormatAttachment(Hash(f))];
    assert MandrillAttachmentArgs(Arr([Hash(p)])).items == [FormatAttachment(Hash(p))];
  }

  // ---------------------------------------------------------------------------
  // The instance: the message and its readers

  /** What `message` holds: nothing yet, or the hash the mailer built. */
  predicate MessageState(message: Value) {
    !Truthy(message) || message.Hash?
  }

  /**
    What a reader of `key` gives: the (nil) message itself before one is
    built; afterwards nil for a key the message lacks, and the value the
    message holds for it otherwise.
   */
  predicate ReadsField(message: Value, key: string, r: Value) {
    (!Truthy(message) ==> r == message) &&
    (message.Hash? && !HasKey(message.entries, Str(key)) ==> r == Nil) &&
    (message.Hash? && UniqueKeys(message.entries) ==>
      forall i :: 0 <= i < |message.entries| && message.entries[i].key == Str(key) ==> r == message.entries[i].val)
  }

  /** `self.message && self.message[key]` */
  function MessageField(message: Value, key: string): (r: Value)
    requires MessageState(message)
    ensures ReadsField(message, key, r)
  {
    if Truthy(message) then
      var h := message.entries;
      if HasKey(h, Str(key)) then
        ReadsUniqueKey(h, Str(key));
        Lookup(h, Str(key))
      else
        LookupMissing(h, Str(key));
        Lookup(h, Str(key))
    else message
  }

  /** In a hash with unique keys, a lookup finds the one entry holding the key. */
  lemma ReadsUniqueKey(h: seq<Entry>, k: Value)
    ensures UniqueKeys(h) ==> forall i :: 0 <= i < |h| && h[i].key == k ==> Lookup(h, k) == h[i].val
  {
    if UniqueKeys(h) {
      forall i | 0 <= i < |h| && h[i].key == k ensures Lookup(h, k) == h[i].val {
        LookupFirst(h, i);
      }
    }
  }

  /** `self.message && self.message['to'] = format_to_params(values)` */
  function AssignTo(message: Value, values: Value): (r: Value)
    requires MessageState(message)
    ensures MessageState(r)
    ensures !Truthy(message) ==> r == message
    ensures Truthy(message) ==> ReadsField(r, "to", ArgFormatter.Params(values))
  {
    if Truthy(message) then
      var h := Store(message.entries, Str("to"), FormatToParams(values));
      StoreLookup(message.entries, Str("to"), FormatToParams(values), Str("to"));
      StoreHasKey(message.entries, Str("to"), FormatToParams(values), Str("to"));
      ReadsUniqueKey(h, Str("to"));
      Hash(h)
    else message
  }

  /**
    `to = values` stores the normalised recipients under `to` and changes no
    other field; before a message is built it does nothing.
   */
  lemma AssignToReadsBack(message: Value, values: Value, key: string)
    requires MessageState(message)
    ensures MessageState(AssignTo(message, values))
    ensures !Truthy(message) ==> AssignTo(message, values) == message
    ensures Truthy(message) ==> MessageField(AssignTo(message, values), "to") == ArgFormatter.Params(values)
    ensures key != "to" ==> MessageField(AssignTo(message, values), key) == MessageField(message, key)
  {
    if Truthy(message) {
      StoreLookup(message.entries, Str("to"), FormatToParams(values), Str("to"));
      StoreLookup(message.entries, Str("to"), FormatToParams(values), Str(key));
    }
  }

  /** The key order: an existing `to` keeps its place, a missing one is added at the end. */
  lemma AssignToKeys(message: Value, values: Value)
    requires message.Hash?
    ensures var r := AssignTo(message, values).entries;
      Keys(r) == if HasKey(message.entries, Str("to")) then Keys(message.entries)
                 else Keys(message.entries) + [Str("to")]
  {
    StoreKeys(message.entries, Str("to"), FormatToParams(values));
  }

  /** The message `#{class}##{method}() is not implemented.` */
  function NotImplemented(className: string, name: string): Error {
    NotImplementedError(className + "#" + name + "() is not implemented.")
  }

  /** The instance methods the base class leaves to its subclasses. */
  datatype Unimplemented = Deliver | MandrillMail | Data | CheckRequiredOptions

  function MethodName(m: Unimplemented): string {
    match m
    case Deliver => "deliver"
    case MandrillMail => "mandrill_mail"
    case Data => "data"
    case CheckRequiredOptions => "check_required_options"
  }

  /** The error starts with the class name and tells the four methods apart. */
  lemma NotImplementedNamesMethod(className: string, m: Unimplemented, m2: Unimplemented)
    ensures NotImplemented(className, MethodName(m)).message[..|className| + 1] == className + "#"
    ensures NotImplemented(className, MethodName(m)) == NotImplemented(className, MethodName(m2)) <==> m == m2
  {
    var msg := NotImplemented(className, MethodName(m)).message;
    assert msg == className + "#" + (MethodName(m) + "() is not implemented.");
    assert |NotImplemented(className, MethodName(m2)).message| == |className| + |MethodName(m2)| + 23;
  }

  /** A mailer instance of the class named `className`. */
  class Mailer {
    const className: string
    var message: Value
    var async: Value
    var ipPool: Value
    var sendAt: Value

    constructor (className: string)
      ensures this.className == className
      ensures message == Nil && async == Nil && ipPool == Nil && sendAt == Nil
      ensures Valid() && From() == Nil && To() == Nil && Bcc() == Nil
    {
      this.className := className;
      message := Nil;
      async := Nil;
      ipPool := Nil;
      sendAt := Nil;
    }

    predicate Valid()
      reads this
    {
      MessageState(message)
    }

    /** `from` */
    function From(): (r: Value)
      requires Valid()
      reads this
      ensures ReadsField(message, "from_email", r)
    {
      MessageField(message, "from_email")
    }

    /** `to` */
    function To(): (r: Value)
      requires Valid()
      reads this
      ensures ReadsField(message, "to", r)
    {
      MessageField(message, "to")
    }

    /** `bcc` */
    function Bcc(): (r: Value)
      requires Valid()
      reads this
      ensures ReadsField(message, "bcc_address", r)
    {
      MessageField(message, "bcc_address")
    }

    /** `to=(values)` */
    method SetTo(values: Value)
      requires Valid()
      modifies this
      ensures Valid() && message == AssignTo(old(message), values)
      ensures async == old(async) && ipPool == old(ipPool) && sendAt == old(sendAt)
      ensures Truthy(old(message)) ==> To() == ArgFormatter.Params(values)
      ensures From() == old(From()) && Bcc() == old(Bcc())
    {
      AssignToReadsBack(message, values, "to");
      AssignToReadsBack(message, values, "from_email");
      AssignToReadsBack(message, values, "bcc_address");
      message := AssignTo(message, values);
    }

    /** `deliver`, `mandrill_mail(args)`, `data` and `check_required_options`: left to the subclasses. */
    method CallUnimplemented(m: Unimplemented) returns (r: Result<Value>)
      ensures r == Err(NotImplemented(className, MethodName(m)))
    {
      r := Err(NotImplemented(className, MethodName(m)));
    }
  }
}
