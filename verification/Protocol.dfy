/** Events, exact tag access and the error vocabulary shared by the three signed event chains. */
module Protocol {
  import opened Base
  import opened Text

  type EventId = Hex32
  type PublicKey = Hex32
  type Tag = seq<string>

  const ENTITLEMENT_GRANT_KIND: nat := 1030
  const ADP_CAMPAIGN_KIND: nat := 1031
  const FULFILLMENT_AUTHORIZATION_KIND: nat := 30406

  /** A signed event. `verified` is the outcome of the signature check on exactly these fields. */
  datatype Event = Event(id: EventId, pubkey: PublicKey, kind: nat, createdAt: u64, tags: seq<Tag>, verified: bool)

  datatype ProtocolError =
    | InvalidSignature
    | WrongKind(expected: nat, found: nat)
    | MissingTag(name: string)
    | DuplicateTag(name: string)
    | MalformedTag(name: string)
    | ForbiddenTag(name: string)
    | WrongPublisher

  datatype ChainError =
    | Empty
    | MultipleRoots
    | Fork(at: EventId)
    | Cycle
    | Disconnected
    | InvariantMutation
    | InvalidTransition

  predicate HasName(tag: Tag, name: string) {
    tag != [] && tag[0] == name
  }

  function Named(tags: seq<Tag>, name: string): seq<Tag> {
    Filter((tag: Tag) => HasName(tag, name), tags)
  }

  /** The single value of the tag `name`; a repeated tag or a tag of another shape is an error. */
  function ExactTag(tags: seq<Tag>, name: string, required: bool): (r: Result<Option<string>, ProtocolError>)
    ensures forall v :: r == Success(Some(v)) <==> v != "" && Named(tags, name) == [[name, v]]
    ensures r == Success(None) <==> !required && Named(tags, name) == []
    ensures r == Failure(MissingTag(name)) <==> required && Named(tags, name) == []
    ensures r == Failure(DuplicateTag(name)) <==> |Named(tags, name)| > 1
    ensures r.Failure? ==> r.error in {MissingTag(name), DuplicateTag(name), MalformedTag(name)}
  {
    var matches := Named(tags, name);
    assert forall tag :: tag in matches ==> HasName(tag, name);
    if |matches| > 1 then Failure(DuplicateTag(name))
    else if matches == [] then
      if required then Failure(MissingTag(name)) else Success(None)
    else
      var values := matches[0];
      assert matches == [values] && values in matches;
      if |values| != 2 || values[1] == "" then Failure(MalformedTag(name))
      else
        assert values == [name, values[1]];
        Success(Some(values[1]))
  }

  function RequiredTag(tags: seq<Tag>, name: string): (r: Result<string, ProtocolError>)
    ensures forall v :: r == Success(v) <==> v != "" && Named(tags, name) == [[name, v]]
  {
    var value :- ExactTag(tags, name, true);
    OkOr(value, MissingTag(name))
  }

  /** An optional tag holding an event id. */
  function OptionalId(tags: seq<Tag>, name: string): Result<Option<EventId>, ProtocolError> {
    var value :- ExactTag(tags, name, false);
    match value
    case None => Success(None)
    case Some(hex) =>
      var id :- OkOr(FromHex(hex), MalformedTag(name));
      Success(Some(id))
  }

  function RequiredHex(tags: seq<Tag>, name: string): Result<Hex32, ProtocolError> {
    var value :- RequiredTag(tags, name);
    OkOr(FromHex(value), MalformedTag(name))
  }

  function RequiredU64(tags: seq<Tag>, name: string): Result<u64, ProtocolError> {
    var value :- RequiredTag(tags, name);
    OkOr(ParseU64(value), MalformedTag(name))
  }

  /** The publisher named by a `30402:<hex key>:<identifier>` coordinate. */
  function CoordinatePublisher(coordinate: string): (r: Option<PublicKey>)
    ensures r.Some? ==> coordinate != ""
  {
    match SplitOnce(coordinate, ':')
    case None => None
    case Some(head) =>
      match SplitOnce(head.1, ':')
      case None => None
      case Some(tail) =>
        if head.0 != "30402" || tail.1 == "" then None else FromHex(tail.0)
  }

  /** A list of tags read by name behaves like the concatenation of its parts. */
  lemma NamedConcat(a: seq<Tag>, b: seq<Tag>, name: string)
    ensures Named(a + b, name) == Named(a, name) + Named(b, name)
  {
    FilterConcat((tag: Tag) => HasName(tag, name), a, b);
  }

  lemma NamedSingle(tag: Tag, name: string)
    ensures Named([tag], name) == if HasName(tag, name) then [tag] else []
  {
    FilterSingle((t: Tag) => HasName(t, name), tag);
  }

  // ---------- plain ids ----------

  /** 64 times the same hex digit. */
  function DigitId(digit: char): EventId
    requires IsLowerHexDigit(digit)
  {
    seq(64, _ => digit)
  }

  lemma IdsDiffer(a: char, b: char)
    requires IsLowerHexDigit(a) && IsLowerHexDigit(b) && a != b
    ensures DigitId(a) != DigitId(b)
  {
    assert DigitId(a)[0] == a && DigitId(b)[0] == b;
  }

  // ---------- coordinates ----------

  /** The coordinate of a publisher's game. */
  function CoordinateOf(publisher: PublicKey, name: string): string {
    "30402" + [':'] + (publisher + [':'] + name)
  }

  lemma CoordinateNamesPublisher(publisher: PublicKey, name: string)
    requires name != ""
    ensures CoordinatePublisher(CoordinateOf(publisher, name)) == Some(publisher)
  {
    SplitOnceAt("30402", ':', publisher + [':'] + name);
    SplitOnceAt(publisher, ':', name);
  }

  /** The parts of a coordinate: the kind, a key in hex, and a name that is not empty. */
  predicate IsCoordinate(coordinate: string, hex: string, name: string) {
    coordinate == "30402" + [':'] + (hex + [':'] + name) && ':' !in hex && name != ""
  }

  /** A coordinate names the publisher its second part spells, and nothing else names one. */
  lemma CoordinatePublisherIff(coordinate: string, publisher: PublicKey)
    ensures CoordinatePublisher(coordinate) == Some(publisher) <==>
      exists hex, name :: IsCoordinate(coordinate, hex, name) && FromHex(hex) == Some(publisher)
  {
    if CoordinatePublisher(coordinate) == Some(publisher) {
      var head := SplitOnce(coordinate, ':').value;
      var tail := SplitOnce(head.1, ':').value;
      assert coordinate == head.0 + [':'] + head.1 && head.1 == tail.0 + [':'] + tail.1;
      assert IsCoordinate(coordinate, tail.0, tail.1);
    }
    if hex, name :| IsCoordinate(coordinate, hex, name) && FromHex(hex) == Some(publisher) {
      assert ':' !in "30402";
      SplitOnceAt("30402", ':', hex + [':'] + name);
      SplitOnceAt(hex, ':', name);
    }
  }

  // ---------- signing ----------

  /** A p-tag for `signer`. */
  predicate Mentions(tag: Tag, signer: PublicKey) {
    |tag| >= 2 && tag[0] == "p" && tag[1] == signer
  }

  /** The tags `signer` publishes: unless told otherwise, the event builder discards p-tags for the signer itself. */
  function Signed(tags: seq<Tag>, signer: PublicKey): seq<Tag> {
    Filter((tag: Tag) => !Mentions(tag, signer), tags)
  }

  /** Nothing is discarded when no p-tag is for the signer. */
  lemma SignedUnchanged(tags: seq<Tag>, signer: PublicKey)
    requires forall tag :: tag in Named(tags, "p") ==> !Mentions(tag, signer)
    ensures Signed(tags, signer) == tags
  {
    forall tag | tag in tags ensures !Mentions(tag, signer) {
      if HasName(tag, "p") {
        assert tag in Named(tags, "p");
      }
    }
    FilterAll((tag: Tag) => !Mentions(tag, signer), tags);
  }

  /** A lone p-tag for the signer is lost. */
  lemma SignedLosesMention(tags: seq<Tag>, signer: PublicKey)
    requires Named(tags, "p") == [["p", signer]]
    ensures Named(Signed(tags, signer), "p") == []
  {
    forall tag | tag in Signed(tags, signer) ensures !HasName(tag, "p") {
      assert HasName(tag, "p") ==> tag in Named(tags, "p");
    }
    FilterNone((tag: Tag) => HasName(tag, "p"), Signed(tags, signer));
  }

  // ---------- what a parsed tag says ----------

  /** Exactly one tag has this name, and it holds `text`. */
  predicate Says(tags: seq<Tag>, name: string, text: string) {
    text != "" && Named(tags, name) == [[name, text]]
  }

  /** Exactly one tag has this name, and it spells these 32 bytes. */
  ghost predicate SaysHex(tags: seq<Tag>, name: string, value: Hex32) {
    exists text :: Says(tags, name, text) && FromHex(text) == Some(value)
  }

  ghost predicate SaysNumber(tags: seq<Tag>, name: string, n: u64) {
    exists text :: Says(tags, name, text) && ParseU64(text) == Some(n)
  }

  /** No tag has this name and nothing is read, or one tag has it and spells the value. */
  ghost predicate SaysOptionalHex(tags: seq<Tag>, name: string, value: Option<Hex32>) {
    if value.None? then Named(tags, name) == [] else SaysHex(tags, name, value.value)
  }

  ghost predicate SaysOptional(tags: seq<Tag>, name: string, value: Option<string>) {
    if value.None? then Named(tags, name) == [] else Says(tags, name, value.value)
  }

  lemma ReadsWhatTagsSay(tags: seq<Tag>, name: string)
    ensures forall text :: RequiredTag(tags, name) == Success(text) <==> Says(tags, name, text)
    ensures forall value: Hex32 :: RequiredHex(tags, name) == Success(value) <==> SaysHex(tags, name, value)
    ensures forall n: u64 :: RequiredU64(tags, name) == Success(n) <==> SaysNumber(tags, name, n)
    ensures forall value: Option<Hex32> :: OptionalId(tags, name) == Success(value) <==>
            SaysOptionalHex(tags, name, value)
    ensures forall value: Option<string> :: ExactTag(tags, name, false) == Success(value) <==>
            SaysOptional(tags, name, value)
  {
  }
}
