/**
 * The Express service (server.js): announcement validation and
 * normalisation on POST, identifier stamping on reads, the Firebase query
 * for listings, the client-side motivation filter and the LDP container.
 * The Firebase store is passed in as function-typed capabilities.
 */
module Server {
  import opened Wrappers
  import opened Json
  import opened Text
  import opened Filtering

  const Context: string := "http://www.w3.org/ns/ldp"
  const DefaultIdRoot: string := "http://inbox.rerum.io"
  const ContainerType: string := "ldp:Container"

  const DuplicateIdMessage: string := "Property '@id' indicates this is not a new announcement."
  const MissingMotivationMessage: string := "Announcements without 'motivation' are not allowed on this server."
  const CreateFailedMessage: string := "Failed to create message"
  const FetchFailedMessage: string := "Failed to fetch messages"
  const NotFoundMessage: string := "No message found"
  const PutRefusedMessage: string := "PUT is not implemented for this inbox."
  const DeleteRefusedMessage: string := "DELETE is not implemented for this inbox."

  /** An HTTP status with the JSON object sent as the body. */
  datatype Reply = Reply(status: nat, body: Obj)

  /** One `key -> document` pair of the store's listing, in the order the store returns them. */
  datatype Stored = Stored(key: string, doc: Obj)

  /** One name/value pair of a `URLSearchParams`. */
  datatype Param = Param(name: string, value: string)

  function ErrorBody(message: string): Obj
  {
    [Entry("error", Str(message))]
  }

  /** `process.env.ID_ROOT || 'http://inbox.rerum.io'`: an unset or empty variable falls back to the default. */
  function IdRoot(env: Option<string>): (root: string)
    ensures root != ""
    ensures env.Some? && env.value != "" ==> root == env.value
    ensures env.None? || env.value == "" ==> root == DefaultIdRoot
  {
    if env.Some? && env.value != "" then env.value else DefaultIdRoot
  }

  /** The canonical identifier of the stored message `key`. */
  function MessageId(idRoot: string, key: string): string
  {
    idRoot + "/id/" + key
  }

  /**
   * `{ '@id': id, ...obj }`: `@id` comes first, the spread then copies every
   * entry of `obj`, so an `@id` already in `obj` (whatever its value) wins.
   */
  function AddIdToObject(obj: Obj, id: string): (r: Obj)
    ensures r != [] && r[0].key == "@id"
    ensures Lookup(r, "@id") == if "@id" in Keys(obj) then Lookup(obj, "@id") else Some(Str(id))
    ensures forall k :: k != "@id" ==> Lookup(r, k) == Lookup(obj, k)
    ensures Keys(r) == Keys(obj) + {"@id"}
    ensures WellFormed(obj) ==> WellFormed(r)
    ensures "@id" !in Keys(obj) ==> r == [Entry("@id", Str(id))] + obj
  {
    var v := match Lookup(obj, "@id") case Some(existing) => existing case None => Str(id);
    var rest := Without(obj, "@id");
    assert ([Entry("@id", v)] + rest)[1..] == rest;
    [Entry("@id", v)] + rest
  }

  /** Stamping twice changes nothing: the first identifier is kept. */
  lemma AddIdToObjectIdempotent(obj: Obj, id: string, id2: string)
    ensures AddIdToObject(AddIdToObject(obj, id), id2) == AddIdToObject(obj, id)
  {
    var once := AddIdToObject(obj, id);
    var rest := Without(obj, "@id");
    assert once[1..] == rest;
    WithoutIdempotent(once, "@id");
    WithoutTwice(once, rest);
  }

  lemma WithoutIdempotent(o: Obj, k: string)
    ensures Without(Without(o, k), k) == Without(o, k)
  {
  }

  lemma WithoutTwice(once: Obj, rest: Obj)
    requires once != [] && once[0].key == "@id" && once[1..] == rest && "@id" !in Keys(rest)
    ensures Without(once, "@id") == rest
  {
  }

  function Quoted(s: string): string
  {
    "\"" + s + "\""
  }

  /** The Firebase parameters selecting the entries whose `field` equals `value`. */
  function EqualityParams(field: string, value: string): seq<Param>
  {
    [Param("orderBy", Quoted(field)), Param("equalTo", Quoted(value))]
  }

  /**
   * `buildFirebaseQuery(target, type, motivation)`: one equality filter at
   * most, `type` taking precedence over `target`. `motivation` is not sent.
   */
  function BuildFirebaseQuery(target: string, qType: string, motivation: string): (ps: seq<Param>)
    ensures qType != "" ==> ps == EqualityParams("type", qType)
    ensures qType == "" && target != "" ==> ps == EqualityParams("target", target)
    ensures qType == "" && target == "" ==> ps == []
  {
    if qType != "" then EqualityParams("type", qType)
    else if target != "" then EqualityParams("target", target)
    else []
  }

  function ParamText(p: Param): string
  {
    p.name + "=" + p.value
  }

  /** `name=value` pairs joined by `&`, as `URLSearchParams.toString` lays them out. */
  function ParamsText(ps: seq<Param>): (text: string)
    ensures ps != [] ==> text != []
  {
    if ps == [] then ""
    else if |ps| == 1 then ParamText(ps[0])
    else ParamText(ps[0]) + "&" + ParamsText(ps[1..])
  }

  /** `params.toString() ? '?' + params.toString() : ''`. */
  function QueryText(ps: seq<Param>): (q: string)
    ensures q == "" <==> ps == []
    ensures q != "" ==> q[0] == '?' && q[1..] == ParamsText(ps)
  {
    var text := ParamsText(ps);
    if text != "" then "?" + text else ""
  }

  /**
   * `motivation && !message.motivation?.includes(motivation)` decides to skip.
   * `includes` is String#includes on a string and Array#includes on an
   * array; on any other non-null value it is not a function and the call
   * throws.
   */
  function MotivationFilter(message: Obj, motivation: string): (d: Decision)
    ensures motivation == "" ==> d == Keep
    ensures d == Throw <==>
              motivation != "" && Lookup(message, "motivation").Some?
              && !(Lookup(message, "motivation").value.Null? || Lookup(message, "motivation").value.Str? || Lookup(message, "motivation").value.Arr?)
    ensures motivation != "" && (Lookup(message, "motivation") == None || Lookup(message, "motivation") == Some(Null)) ==> d == Skip
    ensures motivation != "" && Lookup(message, "motivation").Some? && Lookup(message, "motivation").value.Str? ==>
              (d == Keep <==> Contains(Lookup(message, "motivation").value.s, motivation))
    ensures motivation != "" && Lookup(message, "motivation").Some? && Lookup(message, "motivation").value.Arr? ==>
              (d == Keep <==> Str(motivation) in Lookup(message, "motivation").value.items)
  {
    if motivation == "" then Keep
    else
      match Lookup(message, "motivation")
      case None => Skip
      case Some(Null) => Skip
      case Some(Str(s)) => if Contains(s, motivation) then Keep else Skip
      case Some(Arr(xs)) => if Str(motivation) in xs then Keep else Skip
      case Some(_) => Throw
  }

  function Stamp(idRoot: string, e: Stored): Obj
  {
    AddIdToObject(e.doc, MessageId(idRoot, e.key))
  }

  function Steps(es: seq<Stored>, idRoot: string, motivation: string): seq<Step<Obj>>
  {
    seq(|es|, i requires 0 <= i < |es| => Step(MotivationFilter(Stamp(idRoot, es[i]), motivation), Stamp(idRoot, es[i])))
  }

  /** The messages the `GET /messages` loop collects, or None when the filter throws. */
  function Listing(es: seq<Stored>, idRoot: string, motivation: string): Option<seq<Obj>>
  {
    Collect(Steps(es, idRoot, motivation))
  }

  function AsValues(ms: seq<Obj>): (vs: seq<Value>)
    ensures |vs| == |ms| && forall i :: 0 <= i < |ms| ==> vs[i] == Object(ms[i])
  {
    seq(|ms|, i requires 0 <= i < |ms| => Object(ms[i]))
  }

  /** The LDP container of the listing; its `@id` echoes `target`, even an empty one. */
  function Container(idRoot: string, target: string, messages: seq<Obj>): (c: Obj)
    ensures WellFormed(c) && Keys(c) == {"@context", "@type", "@id", "contains"}
    ensures Lookup(c, "@context") == Some(Str(Context))
    ensures Lookup(c, "@type") == Some(Str(ContainerType))
    ensures Lookup(c, "@id") == Some(Str(idRoot + "/messages?target=" + target))
    ensures Lookup(c, "contains") == Some(Arr(AsValues(messages)))
  {
    var c := [ Entry("@context", Str(Context)),
               Entry("@type", Str(ContainerType)),
               Entry("@id", Str(idRoot + "/messages?target=" + target)),
               Entry("contains", Arr(AsValues(messages))) ];
    assert c[3..][1..] == [] && c[2..][1..] == c[3..] && c[1..][1..] == c[2..];
    assert Keys(c[3..]) == {"contains"} && WellFormed(c[3..]);
    assert Keys(c[2..]) == {"@id", "contains"} && WellFormed(c[2..]);
    assert Keys(c[1..]) == {"@type", "@id", "contains"} && WellFormed(c[1..]);
    c
  }

  /**
   * `GET /messages`: query the store, stamp each entry with its canonical
   * `@id`, drop what the motivation filter rejects and wrap the rest. A
   * throwing filter ends in the 500 reply of the `catch`. A `null` store
   * reply (`response.data || {}`) is the empty listing.
   */
  method GetMessages(target: string, qType: string, motivation: string, idRoot: string,
                     list: seq<Param> -> seq<Stored>)
    returns (r: Reply)
    ensures Listing(list(BuildFirebaseQuery(target, qType, motivation)), idRoot, motivation).Some? ==>
              r == Reply(200, Container(idRoot, target,
                     Listing(list(BuildFirebaseQuery(target, qType, motivation)), idRoot, motivation).value))
    ensures Listing(list(BuildFirebaseQuery(target, qType, motivation)), idRoot, motivation).None? ==>
              r == Reply(500, ErrorBody(FetchFailedMessage))
  {
    var query := BuildFirebaseQuery(target, qType, motivation);
    var data := list(query);
    ghost var steps := Steps(data, idRoot, motivation);
    var messages: seq<Obj> := [];
    var i := 0;
    assert steps[i..] == steps;
    match Collect(steps) {
      case None =>
      case Some(all) => assert [] + all == all;
    }
    while i < |data|
      invariant 0 <= i <= |data|
      invariant Listing(data, idRoot, motivation) == Prepend(messages, Collect(steps[i..]))
    {
      var message := AddIdToObject(data[i].doc, MessageId(idRoot, data[i].key));
      var decision := MotivationFilter(message, motivation);
      assert steps[i..][0] == Step(decision, message) && steps[i..][1..] == steps[i + 1..];
      if decision == Throw {
        return Reply(500, ErrorBody(FetchFailedMessage));
      }
      if decision == Keep {
        PrependTwice(messages, [message], Collect(steps[i + 1..]));
        messages := messages + [message];
      }
      i := i + 1;
    }
    assert steps[i..] == [] && messages + [] == messages;
    r := Reply(200, Container(idRoot, target, messages));
  }

  /**
   * A listed message is a store entry stamped by `addIdToObject`: its `@id`
   * is the entry's own when the entry has one (even a falsy one, which
   * `POST` lets through), and otherwise `<root>/id/<key>` put in front of
   * the entry's keys.
   */
  lemma {:induction false} ListingStampsCanonicalIds(es: seq<Stored>, idRoot: string, motivation: string)
    requires Listing(es, idRoot, motivation).Some?
    ensures forall x :: x in Listing(es, idRoot, motivation).value ==>
              exists i :: 0 <= i < |es| && x == Stamp(idRoot, es[i])
                && Lookup(x, "@id") == (if "@id" in Keys(es[i].doc) then Lookup(es[i].doc, "@id") else Some(Str(MessageId(idRoot, es[i].key))))
                && ("@id" !in Keys(es[i].doc) ==> x == [Entry("@id", Str(MessageId(idRoot, es[i].key)))] + es[i].doc)
  {
    var steps := Steps(es, idRoot, motivation);
    CollectKeepsExactlyKept(steps);
    forall x | x in Listing(es, idRoot, motivation).value
      ensures exists i :: 0 <= i < |es| && x == Stamp(idRoot, es[i])
                && Lookup(x, "@id") == (if "@id" in Keys(es[i].doc) then Lookup(es[i].doc, "@id") else Some(Str(MessageId(idRoot, es[i].key))))
                && ("@id" !in Keys(es[i].doc) ==> x == [Entry("@id", Str(MessageId(idRoot, es[i].key)))] + es[i].doc)
    {
      var i :| 0 <= i < |steps| && steps[i].decision == Keep && steps[i].item == x;
      assert x == Stamp(idRoot, es[i]);
    }
  }

  /** The listing is the stamped entries with some left out, in store order. */
  lemma ListingPreservesOrder(es: seq<Stored>, idRoot: string, motivation: string)
    requires Listing(es, idRoot, motivation).Some?
    ensures IsSubsequence(Listing(es, idRoot, motivation).value,
                          seq(|es|, i requires 0 <= i < |es| => Stamp(idRoot, es[i])))
  {
    var steps := Steps(es, idRoot, motivation);
    CollectIsOrderedSubsequence(steps);
    assert Items(steps) == seq(|es|, i requires 0 <= i < |es| => Stamp(idRoot, es[i]));
  }

  /** The entry's `motivation` is absent, `null` or a string, so the filter cannot throw on it. */
  predicate HasTextMotivation(doc: Obj)
  {
    match Lookup(doc, "motivation")
    case None => true
    case Some(Null) => true
    case Some(Str(_)) => true
    case Some(_) => false
  }

  /** What the filter of `GET /messages` asks of an entry whose motivation is absent, `null` or a string. */
  predicate MotivationMatches(doc: Obj, motivation: string)
  {
    motivation == "" ||
      match Lookup(doc, "motivation")
      case Some(Str(s)) => Contains(s, motivation)
      case _ => false
  }

  /**
   * Over entries whose `motivation` is absent, `null` or a string, the listing
   * never fails and keeps an entry exactly when the query motivation is
   * empty or the entry has a motivation containing it as a substring.
   */
  lemma {:induction false} ListingKeepsMatchingMotivations(es: seq<Stored>, idRoot: string, motivation: string)
    requires forall i :: 0 <= i < |es| ==> HasTextMotivation(es[i].doc)
    ensures Listing(es, idRoot, motivation).Some?
    ensures forall i :: 0 <= i < |es| ==>
              (Stamp(idRoot, es[i]) in Listing(es, idRoot, motivation).value <==> MotivationMatches(es[i].doc, motivation))
  {
    var steps := Steps(es, idRoot, motivation);
    forall i | 0 <= i < |es|
      ensures steps[i].decision == (if MotivationMatches(es[i].doc, motivation) then Keep else Skip)
    {
      assert Lookup(Stamp(idRoot, es[i]), "motivation") == Lookup(es[i].doc, "motivation");
    }
    CollectFailsIffSomeThrow(steps);
    CollectKeepsExactlyKept(steps);
    forall i | 0 <= i < |es| && Stamp(idRoot, es[i]) in Listing(es, idRoot, motivation).value
      ensures steps[i].decision == Keep
    {
      var j :| 0 <= j < |steps| && steps[j].decision == Keep && steps[j].item == Stamp(idRoot, es[i]);
      assert steps[i].decision == MotivationFilter(steps[j].item, motivation);
    }
  }

  /**
   * With a filter set, one entry whose `motivation` is a number, a boolean
   * or an object makes `includes` throw, and the whole listing fails.
   */
  lemma ListingFailsOnOtherMotivation(es: seq<Stored>, idRoot: string, motivation: string, i: int)
    requires motivation != "" && 0 <= i < |es| && Lookup(es[i].doc, "motivation").Some?
    requires !(Lookup(es[i].doc, "motivation").value.Null? || Lookup(es[i].doc, "motivation").value.Str? || Lookup(es[i].doc, "motivation").value.Arr?)
    ensures Listing(es, idRoot, motivation) == None
  {
    var steps := Steps(es, idRoot, motivation);
    assert Lookup(Stamp(idRoot, es[i]), "motivation") == Lookup(es[i].doc, "motivation");
    assert steps[i].decision == Throw;
    CollectFailsIffSomeThrow(steps);
  }

  /** With a filter set, an entry with no `motivation` is left out. */
  lemma MissingMotivationExcluded(message: Obj, motivation: string)
    requires motivation != "" && "motivation" !in Keys(message)
    ensures MotivationFilter(message, motivation) == Skip
  {
  }

  /**
   * The motivation of the sample document in the javadoc of Message.java:
   * a substring match keeps it, a non-match skips it.
   */
  lemma SupplementExample(message: Obj)
    requires Lookup(message, "motivation") == Some(Str("iiif:supplement:range"))
    ensures MotivationFilter(message, "supplement") == Keep
    ensures MotivationFilter(message, "zzz") == Skip
  {
    SupplementOccurs();
    ZzzDoesNotOccur();
  }

  lemma SupplementOccurs()
    ensures Contains("iiif:supplement:range", "supplement")
  {
    var s := "iiif:supplement:range";
    assert s[5..15] == "supplement";
    assert OccursAt(s, "supplement", 5);
  }

  lemma ZzzDoesNotOccur()
    ensures !Contains("iiif:supplement:range", "zzz")
  {
    var s := "iiif:supplement:range";
    assert 'z' !in s;
    if Contains(s, "zzz") {
      ContainsHead(s, "zzz");
    }
  }

  /**
   * `POST /messages`. The document is checked for a truthy `@id`, then for
   * a truthy `motivation`; a falsy `@context` is defaulted and `published`
   * is overwritten in place; the store's reply must carry a truthy `name`,
   * which becomes the key of the returned `@id`. `sent` is the document the
   * store received, None when the store is never called.
   */
  method PostMessages(body: Obj, idRoot: string, time: string, create: Obj -> Option<Obj>)
    returns (sent: Option<Obj>, r: Reply)
    ensures TruthyAt(body, "@id") ==> sent == None && r == Reply(400, ErrorBody(DuplicateIdMessage))
    ensures !TruthyAt(body, "@id") && !TruthyAt(body, "motivation") ==>
              sent == None && r == Reply(400, ErrorBody(MissingMotivationMessage))
    ensures !TruthyAt(body, "@id") && TruthyAt(body, "motivation") ==> sent.Some?
    ensures sent.Some? ==>
              && Lookup(sent.value, "@context") == (if TruthyAt(body, "@context") then Lookup(body, "@context") else Some(Str(Context)))
              && Lookup(sent.value, "published") == Some(Str(time))
              && (forall k :: k != "@context" && k != "published" ==> Lookup(sent.value, k) == Lookup(body, k))
              && (WellFormed(body) ==> WellFormed(sent.value))
    ensures sent.Some? && CreatedKey(create(sent.value)).None? ==> r == Reply(500, ErrorBody(CreateFailedMessage))
    ensures sent.Some? && CreatedKey(create(sent.value)).Some? ==>
              r == Reply(201, AddIdToObject(sent.value, MessageId(idRoot, CreatedKey(create(sent.value)).value)))
    ensures r.status == 201 && "@id" !in Keys(body) ==>
              sent.Some? && CreatedKey(create(sent.value)).Some? &&
              Lookup(r.body, "@id") == Some(Str(MessageId(idRoot, CreatedKey(create(sent.value)).value)))
  {
    var announcement := body;
    if TruthyAt(announcement, "@id") {
      return None, Reply(400, ErrorBody(DuplicateIdMessage));
    }
    if !TruthyAt(announcement, "motivation") {
      return None, Reply(400, ErrorBody(MissingMotivationMessage));
    }
    if !TruthyAt(announcement, "@context") {
      announcement := Assign(announcement, "@context", Str(Context));
    }
    announcement := Assign(announcement, "published", Str(time));
    sent := Some(announcement);
    var key := CreatedKey(create(announcement));
    if key.None? {
      return sent, Reply(500, ErrorBody(CreateFailedMessage));
    }
    r := Reply(201, AddIdToObject(announcement, MessageId(idRoot, key.value)));
  }

  /**
   * `if (!response.data || !response.data.name) throw`: the store key, the
   * string in the reply's `name`.
   */
  function CreatedKey(data: Option<Obj>): (key: Option<string>)
    ensures data.None? ==> key.None?
    ensures data.Some? && !TruthyAt(data.value, "name") ==> key.None?
    ensures key.Some? ==> key.value != "" && Lookup(data.value, "name") == Some(Str(key.value))
    ensures data.Some? && TruthyAt(data.value, "name") && Lookup(data.value, "name").value.Str? ==>
              key == Some(Lookup(data.value, "name").value.s)
  {
    match data
    case None => None
    case Some(d) =>
      match Lookup(d, "name")
      case Some(Str(s)) => if s != "" then Some(s) else None
      case _ => None
  }

  /**
   * `GET /id/:noteId`: a `null` store reply is 404; any object, even `{}`,
   * is returned with `@id` stamped from the requested id.
   */
  function GetMessage(noteId: string, idRoot: string, read: string -> Option<Obj>): (r: Reply)
    ensures read(noteId).None? ==> r == Reply(404, ErrorBody(NotFoundMessage))
    ensures read(noteId).Some? ==>
              && r.status == 200
              && (forall k :: k != "@id" ==> Lookup(r.body, k) == Lookup(read(noteId).value, k))
              && Lookup(r.body, "@id") == (if "@id" in Keys(read(noteId).value) then Lookup(read(noteId).value, "@id")
                                           else Some(Str(MessageId(idRoot, noteId))))
              && ("@id" !in Keys(read(noteId).value) ==>
                    r.body == [Entry("@id", Str(MessageId(idRoot, noteId)))] + read(noteId).value)
  {
    match read(noteId)
    case None => Reply(404, ErrorBody(NotFoundMessage))
    case Some(data) => Reply(200, AddIdToObject(data, MessageId(idRoot, noteId)))
  }

  /** An empty stored object is found, not missing. */
  lemma EmptyObjectIsFound(noteId: string, idRoot: string, read: string -> Option<Obj>)
    requires read(noteId) == Some([])
    ensures GetMessage(noteId, idRoot, read) == Reply(200, [Entry("@id", Str(MessageId(idRoot, noteId)))])
  {
  }

  /** `PUT /messages` is refused whatever the request holds. */
  function PutMessages(): (r: Reply)
    ensures r.status == 405 && r.body == ErrorBody(PutRefusedMessage)
  {
    Reply(405, ErrorBody(PutRefusedMessage))
  }

  /** `DELETE /messages` is refused whatever the request holds. */
  function DeleteMessages(): (r: Reply)
    ensures r.status == 405 && r.body == ErrorBody(DeleteRefusedMessage)
  {
    Reply(405, ErrorBody(DeleteRefusedMessage))
  }
}
