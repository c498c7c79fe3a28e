/**
 * The legacy JAX-RS resource (MessagesResource.java). The query fields
 * `TARGET`, `Q_TYPE` and `MOTIVATION` are parameters; the Firebase calls
 * and `Message.generate`, whose source is not part of this model, are
 * function-typed parameters. An exception is None.
 */
module MessagesResource {
  import opened Wrappers
  import opened Json
  import opened Text
  import opened Filtering

  const Context: string := "http://www.w3.org/ns/ldp"
  const IdRoot: string := "http://inbox.rerum.io/messages"
  const ContainerType: string := "ldp:Container"
  /** The root `readMessages` stamps item identifiers from. */
  const ItemIdRoot: string := "http://inbox.rerum.io/id/"

  const HttpBadMethod: nat := 405

  const DuplicateIdText: string := "{\"error\":\"Property '@id' indicates this is not a new annoucement.\"}"
  const MissingMotivationText: string := "{\"error\":\"Annoucements without 'motivation' are not allowed on this server.\"}"

  /** `Message.generate(object, key, value)`: a document with `key` set to the string `value`. */
  type Generate = (Obj, string, string) -> Obj

  /** What a reasonable `generate` does: `key` maps to `value`, every other key is untouched. */
  ghost predicate IsInsert(generate: Generate)
  {
    forall o, k, v, k2 :: Lookup(generate(o, k, v), k2) == if k2 == k then Some(Str(v)) else Lookup(o, k2)
  }

  /** A `Response` built from a status and a plain-text entity. */
  datatype JaxResponse = JaxResponse(status: nat, entity: string)

  /** `putPending`: refused, whatever was sent. */
  function PutPending(): (r: JaxResponse)
    ensures r.status == HttpBadMethod && r.entity == "PUT is not implemented for this inbox."
  {
    JaxResponse(HttpBadMethod, "PUT is not implemented for this inbox.")
  }

  /** `deletePending`: refused, whatever was sent. */
  function DeletePending(): (r: JaxResponse)
    ensures r.status == HttpBadMethod && r.entity == "DELETE is not implemented for this inbox."
  {
    JaxResponse(HttpBadMethod, "DELETE is not implemented for this inbox.")
  }

  /** What `postJson` returns: a fixed error text, or a JSON object to be printed. */
  datatype PostResult = ErrorText(text: string) | Document(doc: Obj)

  /**
   * `postMessage` succeeds when it can read the reply and log its string
   * `name`; `getJsonString("name")` throws on a missing or non-string name.
   */
  predicate HasStringName(reply: Option<Obj>)
  {
    reply.Some? && Lookup(reply.value, "name").Some? && Lookup(reply.value, "name").value.Str?
  }

  /**
   * `postJson`: any `@id` key is refused, then a missing `motivation` key;
   * `@context` is generated when the key is absent and `published` always.
   * On success the store's own reply replaces the document; when the store
   * call throws, the normalised document is returned. `sent` is the
   * document handed to the store, None when it is never called.
   */
  method PostJson(announcement: Obj, time: string, generate: Generate, post: Obj -> Option<Obj>)
    returns (sent: Option<Obj>, r: PostResult)
    ensures "@id" in Keys(announcement) ==> sent == None && r == ErrorText(DuplicateIdText)
    ensures "@id" !in Keys(announcement) && "motivation" !in Keys(announcement) ==>
              sent == None && r == ErrorText(MissingMotivationText)
    ensures "@id" !in Keys(announcement) && "motivation" in Keys(announcement) ==> sent.Some?
    ensures sent.Some? && IsInsert(generate) ==>
              && Lookup(sent.value, "@context") ==
                   (if "@context" in Keys(announcement) then Lookup(announcement, "@context") else Some(Str(Context)))
              && Lookup(sent.value, "published") == Some(Str(time))
              && (forall k :: k != "@context" && k != "published" ==> Lookup(sent.value, k) == Lookup(announcement, k))
    ensures sent.Some? && HasStringName(post(sent.value)) ==> r == Document(post(sent.value).value)
    ensures sent.Some? && !HasStringName(post(sent.value)) ==> r == Document(sent.value)
  {
    var doc := announcement;
    if "@id" in Keys(doc) {
      return None, ErrorText(DuplicateIdText);
    }
    if "motivation" !in Keys(doc) {
      return None, ErrorText(MissingMotivationText);
    }
    if "@context" !in Keys(doc) {
      doc := generate(doc, "@context", Context);
    }
    doc := generate(doc, "published", time);
    sent := Some(doc);
    var reply := post(doc);
    if HasStringName(reply) {
      doc := reply.value;
    }
    r := Document(doc);
  }

  /** `javax.json` renders a string value as a JSON string literal: quoted and escaped. */
  function JsonText(s: string): (t: string)
    ensures |t| >= 2 && t[0] == '"' && t[|t| - 1] == '"'
  {
    "\"" + Escaped(s) + "\""
  }

  function Escaped(s: string): string
  {
    if s == [] then "" else EscapeChar(s[0]) + Escaped(s[1..])
  }

  /** `"` and `\` get a backslash; control characters a short escape or `\u00xx`. */
  function EscapeChar(c: char): string
  {
    if c == '"' then "\\\""
    else if c == '\\' then "\\\\"
    else if c as int >= 0x20 then [c]
    else if c as int == 0x08 then "\\b"
    else if c as int == 0x0C then "\\f"
    else if c == '\n' then "\\n"
    else if c == '\r' then "\\r"
    else if c == '\t' then "\\t"
    else "\\u00" + [HexDigit(c as int / 16), HexDigit(c as int % 16)]
  }

  function HexDigit(d: int): char
    requires 0 <= d < 16
  {
    "0123456789abcdef"[d]
  }

  /**
   * `MOTIVATION.length()==0 || MOTIVATION.contains(m.getJsonString("motivation").toString())`:
   * the query must contain the item's rendered motivation. `getJsonString`
   * throws on a missing or non-string motivation, but only when the filter
   * is set, thanks to the short-circuit.
   */
  function MotivationDecision(m: Obj, motivation: string): (d: Decision)
    ensures |motivation| == 0 ==> d == Keep
    ensures d == Throw <==>
              |motivation| > 0 && !(Lookup(m, "motivation").Some? && Lookup(m, "motivation").value.Str?)
    ensures |motivation| > 0 && Lookup(m, "motivation").Some? && Lookup(m, "motivation").value.Str? ==>
              (d == Keep <==> Contains(motivation, JsonText(Lookup(m, "motivation").value.s)))
  {
    if |motivation| == 0 then Keep
    else
      match Lookup(m, "motivation")
      case Some(Str(s)) => if Contains(motivation, JsonText(s)) then Keep else Skip
      case _ => Throw
  }

  /** One entry of the store's object: `generate` reads it back as an object or throws. */
  function EntryStep(e: Entry, motivation: string, generate: Generate): (st: Step<Obj>)
    ensures !e.val.Object? ==> st.decision == Throw
    ensures IsInsert(generate) && e.val.Object? ==>
              && Lookup(st.item, "@id") == Some(Str(ItemIdRoot + e.key))
              && (forall k :: k != "@id" ==> Lookup(st.item, k) == Lookup(e.val.entries, k))
              && (st.decision == Throw <==>
                    |motivation| > 0 && !(Lookup(e.val.entries, "motivation").Some? && Lookup(e.val.entries, "motivation").value.Str?))
  {
    match e.val
    case Object(doc) =>
      var m := generate(doc, "@id", ItemIdRoot + e.key);
      Step(MotivationDecision(m, motivation), m)
    case _ => Step(Throw, [])
  }

  function EntrySteps(es: seq<Entry>, motivation: string, generate: Generate): seq<Step<Obj>>
  {
    seq(|es|, i requires 0 <= i < |es| => EntryStep(es[i], motivation, generate))
  }

  /** The array `readMessages` builds, or None when it throws; a reply that is not an object throws. */
  function Messages(reply: Value, motivation: string, generate: Generate): Option<seq<Obj>>
  {
    match reply
    case Object(es) => Collect(EntrySteps(es, motivation, generate))
    case _ => None
  }

  /** `readMessages`: the `forEach` over the reply's entries, adding the kept ones to the builder. */
  method ReadMessages(reply: Value, motivation: string, generate: Generate) returns (r: Option<seq<Obj>>)
    ensures r == Messages(reply, motivation, generate)
  {
    if !reply.Object? {
      return None;
    }
    var es := reply.entries;
    ghost var steps := EntrySteps(es, motivation, generate);
    var b: seq<Obj> := [];
    var i := 0;
    assert steps[i..] == steps;
    match Collect(steps) {
      case None =>
      case Some(all) => assert [] + all == all;
    }
    while i < |es|
      invariant 0 <= i <= |es|
      invariant Messages(reply, motivation, generate) == Prepend(b, Collect(steps[i..]))
    {
      var e := es[i];
      assert steps[i..][0] == EntryStep(e, motivation, generate) && steps[i..][1..] == steps[i + 1..];
      if !e.val.Object? {
        return None;
      }
      var m := generate(e.val.entries, "@id", ItemIdRoot + e.key);
      if |motivation| != 0 {
        match Lookup(m, "motivation") {
          case Some(Str(s)) =>
            if Contains(motivation, JsonText(s)) {
              PrependTwice(b, [m], Collect(steps[i + 1..]));
              b := b + [m];
            }
          case _ =>
            return None;
        }
      } else {
        PrependTwice(b, [m], Collect(steps[i + 1..]));
        b := b + [m];
      }
      i := i + 1;
    }
    assert steps[i..] == [] && b + [] == b;
    r := Some(b);
  }

  /**
   * With an inserting `generate`, every listed item is a store entry with
   * `@id` set to `http://inbox.rerum.io/id/<key>` and its other keys unchanged.
   */
  lemma {:induction false} MessagesStampIds(es: seq<Entry>, motivation: string, generate: Generate)
    requires IsInsert(generate)
    requires Messages(Object(es), motivation, generate).Some?
    ensures forall x :: x in Messages(Object(es), motivation, generate).value ==>
              exists i :: 0 <= i < |es| && es[i].val.Object?
                && Lookup(x, "@id") == Some(Str(ItemIdRoot + es[i].key))
                && forall k :: k != "@id" ==> Lookup(x, k) == Lookup(es[i].val.entries, k)
  {
    var steps := EntrySteps(es, motivation, generate);
    CollectKeepsExactlyKept(steps);
    forall x | x in Messages(Object(es), motivation, generate).value
      ensures exists i :: 0 <= i < |es| && es[i].val.Object?
                && Lookup(x, "@id") == Some(Str(ItemIdRoot + es[i].key))
                && forall k :: k != "@id" ==> Lookup(x, k) == Lookup(es[i].val.entries, k)
    {
      var i :| 0 <= i < |steps| && steps[i].decision == Keep && steps[i].item == x;
      assert es[i].val.Object?;
      assert x == generate(es[i].val.entries, "@id", ItemIdRoot + es[i].key);
    }
  }

  /** The array keeps the stamped entries in the order the reply lists them. */
  lemma MessagesPreserveOrder(es: seq<Entry>, motivation: string, generate: Generate)
    requires Messages(Object(es), motivation, generate).Some?
    ensures IsSubsequence(Messages(Object(es), motivation, generate).value, Items(EntrySteps(es, motivation, generate)))
  {
    CollectIsOrderedSubsequence(EntrySteps(es, motivation, generate));
  }

  /** The entry holds an object whose `motivation` is a string. */
  predicate HasStringMotivation(e: Entry)
  {
    e.val.Object? && Lookup(e.val.entries, "motivation").Some? && Lookup(e.val.entries, "motivation").value.Str?
  }

  /** The filter `readMessages` applies to one entry with a string motivation. */
  predicate JavaMatches(e: Entry, motivation: string)
    requires HasStringMotivation(e)
  {
    motivation == "" || Contains(motivation, JsonText(Lookup(e.val.entries, "motivation").value.s))
  }

  lemma EntryDecision(e: Entry, motivation: string, generate: Generate)
    requires IsInsert(generate) && HasStringMotivation(e)
    ensures EntryStep(e, motivation, generate).decision == if JavaMatches(e, motivation) then Keep else Skip
  {
    var m := generate(e.val.entries, "@id", ItemIdRoot + e.key);
    assert Lookup(m, "motivation") == Lookup(e.val.entries, "motivation");
  }

  /**
   * Over object entries whose `motivation` is a string, with an inserting
   * `generate`, the listing never throws and keeps an entry exactly when
   * `MOTIVATION` is empty or contains the entry's rendered motivation.
   */
  lemma {:induction false} MessagesKeepContainedMotivations(es: seq<Entry>, motivation: string, generate: Generate)
    requires IsInsert(generate)
    requires forall i :: 0 <= i < |es| ==> HasStringMotivation(es[i])
    ensures Messages(Object(es), motivation, generate).Some?
    ensures forall i :: 0 <= i < |es| ==>
              (EntryStep(es[i], motivation, generate).item in Messages(Object(es), motivation, generate).value
               <==> JavaMatches(es[i], motivation))
  {
    var steps := EntrySteps(es, motivation, generate);
    forall i | 0 <= i < |es|
      ensures steps[i].decision == if JavaMatches(es[i], motivation) then Keep else Skip
    {
      EntryDecision(es[i], motivation, generate);
    }
    CollectFailsIffSomeThrow(steps);
    CollectKeepsExactlyKept(steps);
    forall i | 0 <= i < |es| && steps[i].item in Messages(Object(es), motivation, generate).value
      ensures steps[i].decision == Keep
    {
      var j :| 0 <= j < |steps| && steps[j].decision == Keep && steps[j].item == steps[i].item;
      assert steps[i].decision == MotivationDecision(steps[i].item, motivation);
      assert steps[j].decision == MotivationDecision(steps[j].item, motivation);
    }
  }

  /**
   * The rendered motivation starts with a quote, so a non-empty filter
   * without a `"` character keeps nothing: the array is empty, or the
   * listing throws.
   */
  lemma {:induction false} UnquotedFilterKeepsNothing(reply: Value, motivation: string, generate: Generate)
    requires motivation != "" && '"' !in motivation
    ensures Messages(reply, motivation, generate) == None || Messages(reply, motivation, generate) == Some([])
  {
    if reply.Object? {
      var steps := EntrySteps(reply.entries, motivation, generate);
      forall i | 0 <= i < |steps|
        ensures steps[i].decision != Keep
      {
        var e := reply.entries[i];
        if e.val.Object? {
          var m := generate(e.val.entries, "@id", ItemIdRoot + e.key);
          if Lookup(m, "motivation").Some? && Lookup(m, "motivation").value.Str? {
            var text := JsonText(Lookup(m, "motivation").value.s);
            if Contains(motivation, text) {
              ContainsHead(motivation, text);
            }
          }
        }
      }
      if Messages(reply, motivation, generate).Some? {
        CollectKeepsExactlyKept(steps);
        if Messages(reply, motivation, generate).value != [] {
          var x := Messages(reply, motivation, generate).value[0];
          assert x in Messages(reply, motivation, generate).value;
        }
      }
    }
  }

  /** `formatList`: the container with the fixed context and type; `contains` is the array as given. */
  function FormatList(target: string, arr: seq<Obj>): (c: Obj)
    ensures WellFormed(c) && Keys(c) == {"@context", "@type", "@id", "contains"}
    ensures Lookup(c, "@context") == Some(Str(Context))
    ensures Lookup(c, "@type") == Some(Str(ContainerType))
    ensures Lookup(c, "@id") == Some(Str(IdRoot + "?target=" + target))
    ensures Lookup(c, "contains") == Some(Arr(seq(|arr|, i requires 0 <= i < |arr| => Object(arr[i]))))
  {
    var c := [ Entry("@context", Str(Context)),
               Entry("@type", Str(ContainerType)),
               Entry("@id", Str(IdRoot + "?target=" + target)),
               Entry("contains", Arr(seq(|arr|, i requires 0 <= i < |arr| => Object(arr[i])))) ];
    assert c[3..][1..] == [] && c[2..][1..] == c[3..] && c[1..][1..] == c[2..];
    assert Keys(c[3..]) == {"contains"} && WellFormed(c[3..]);
    assert Keys(c[2..]) == {"@id", "contains"} && WellFormed(c[2..]);
    assert Keys(c[1..]) == {"@type", "@id", "contains"} && WellFormed(c[1..]);
    c
  }

  function TypeClause(qType: string): string
  {
    "orderBy=\"type\"&equalTo=\"" + qType + "\""
  }

  function TargetClause(target: string): string
  {
    "orderBy=\"target\"&equalTo=\"" + target + "\""
  }

  /**
   * `buildQuery`: `?` when any of the three fields is set, then the `type`
   * clause when `Q_TYPE` is set, then the `target` clause when `TARGET` is
   * set, with nothing between them. `MOTIVATION` adds no clause.
   */
  function BuildQuery(target: string, qType: string, motivation: string): (q: string)
    ensures q == "" <==> target == "" && qType == "" && motivation == ""
    ensures q != "" ==> q[0] == '?'
    ensures q != "" ==> q[1..] == (if qType != "" then TypeClause(qType) else "") + (if target != "" then TargetClause(target) else "")
  {
    var q := "";
    var q := if target != "" || qType != "" || motivation != "" then "?" else q;
    var q := if |qType| > 0 then q + TypeClause(qType) else q;
    var q := if |target| > 0 then q + TargetClause(target) else q;
    q
  }

  /** A motivation-only query is a lone `?`. */
  lemma MotivationOnlyQuery(motivation: string)
    requires motivation != ""
    ensures BuildQuery("", "", motivation) == "?"
  {
  }

  /** `motivation` only decides whether the `?` is there. */
  lemma MotivationAddsNoClause(target: string, qType: string, m1: string, m2: string)
    requires m1 != "" && m2 != ""
    ensures BuildQuery(target, qType, m1) == BuildQuery(target, qType, m2)
  {
  }

  /** `getJson`: the store read with `buildQuery`, through `readMessages` and `formatList`. */
  method GetJson(target: string, qType: string, motivation: string, fetch: string -> Value, generate: Generate)
    returns (r: Option<Obj>)
    ensures Messages(fetch(BuildQuery(target, qType, motivation)), motivation, generate).None? ==> r.None?
    ensures Messages(fetch(BuildQuery(target, qType, motivation)), motivation, generate).Some? ==>
              r == Some(FormatList(target, Messages(fetch(BuildQuery(target, qType, motivation)), motivation, generate).value))
  {
    var messages := ReadMessages(fetch(BuildQuery(target, qType, motivation)), motivation, generate);
    if messages.None? {
      return None;
    }
    r := Some(FormatList(target, messages.value));
  }
}
