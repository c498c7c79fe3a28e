/**
 * Where the Express service and the legacy JAX-RS resource agree, and the
 * inputs on which they part ways.
 */
module Divergence {
  import opened Wrappers
  import opened Json
  import opened Text
  import opened Filtering
  import Server
  import MessagesResource

  /**
   * `@id: ""` passes the truthiness test of server.js but is refused by the
   * `containsKey` test of the Java resource.
   */
  lemma FalsyIdSplitsTheGuards(motivation: string)
    requires motivation != ""
    ensures var doc := [Entry("@id", Str("")), Entry("motivation", Str(motivation))];
            !TruthyAt(doc, "@id") && TruthyAt(doc, "motivation") && "@id" in Keys(doc)
  {
    var doc := [Entry("@id", Str("")), Entry("motivation", Str(motivation))];
    assert doc[1..] == [Entry("motivation", Str(motivation))];
  }

  /** Whatever server.js refuses for its `@id`, the Java resource refuses too. */
  lemma TruthyIdIsPresentId(doc: Obj)
    requires TruthyAt(doc, "@id")
    ensures "@id" in Keys(doc)
  {
  }

  /**
   * `motivation: ""` is refused by server.js and accepted by the Java
   * resource, which only asks for the key; likewise `@context: ""` is
   * replaced by server.js and kept by the Java resource.
   */
  lemma EmptyStringsSplitTheChecks(key: string)
    ensures var doc := [Entry(key, Str(""))];
            !TruthyAt(doc, key) && key in Keys(doc)
  {
  }

  lemma EscapedIsNoShorter(s: string)
    ensures |MessagesResource.Escaped(s)| >= |s|
  {
  }

  lemma JavaSkipsSupplement(message: Obj)
    requires Lookup(message, "motivation") == Some(Str("iiif:supplement:range"))
    ensures MessagesResource.MotivationDecision(message, "supplement") == Skip
  {
    var text := MessagesResource.JsonText("iiif:supplement:range");
    EscapedIsNoShorter("iiif:supplement:range");
    NoLongerNeedle("supplement", text);
  }

  /**
   * The two motivation filters run in opposite directions: for the
   * motivation of the sample document in the javadoc of Message.java,
   * server.js keeps the item under the query
   * `supplement` and the Java resource does not.
   */
  lemma FilterDirectionsDiffer(message: Obj)
    requires Lookup(message, "motivation") == Some(Str("iiif:supplement:range"))
    ensures Server.MotivationFilter(message, "supplement") == Keep
    ensures MessagesResource.MotivationDecision(message, "supplement") == Skip
  {
    Server.SupplementExample(message);
    JavaSkipsSupplement(message);
  }

  lemma PairText(a: Server.Param, b: Server.Param)
    ensures Server.QueryText([a, b]) == "?" + (Server.ParamText(a) + "&" + Server.ParamText(b))
  {
    var ps := [a, b];
    assert ps[1..] == [b];
    assert Server.ParamsText(ps) == Server.ParamText(a) + "&" + Server.ParamText(b);
  }

  /** The one clause server.js sends for `field`, before percent-encoding, is the Java clause. */
  lemma ClauseText(field: string, value: string)
    ensures Server.QueryText(Server.EqualityParams(field, value)) ==
            "?" + ("orderBy=\"" + field + "\"&equalTo=\"" + value + "\"")
  {
    PairText(Server.Param("orderBy", Server.Quoted(field)), Server.Param("equalTo", Server.Quoted(value)));
    var q := "\"";
    assert Server.ParamText(Server.Param("orderBy", Server.Quoted(field))) == "orderBy=" + q + field + q by {
      assert "orderBy" + "=" == "orderBy=";
    }
    assert Server.ParamText(Server.Param("equalTo", Server.Quoted(value))) == "equalTo=" + q + value + q by {
      assert "equalTo" + "=" == "equalTo=";
    }
    assert q + "&" + "equalTo=" + q == "\"&equalTo=\"";
  }

  lemma TypeParamsText(qType: string)
    ensures Server.QueryText(Server.EqualityParams("type", qType)) == "?" + MessagesResource.TypeClause(qType)
  {
    ClauseText("type", qType);
    assert "orderBy=\"" + "type" + "\"&equalTo=\"" == "orderBy=\"type\"&equalTo=\"";
  }

  lemma TargetParamsText(target: string)
    ensures Server.QueryText(Server.EqualityParams("target", target)) == "?" + MessagesResource.TargetClause(target)
  {
    ClauseText("target", target);
    assert "orderBy=\"" + "target" + "\"&equalTo=\"" == "orderBy=\"target\"&equalTo=\"";
  }

  /**
   * With exactly one of `type` and `target` set, both services send the
   * same query (before server.js percent-encodes it).
   */
  lemma QueriesAgreeOnOneFilter(target: string, qType: string, motivation: string)
    requires (qType != "") != (target != "")
    ensures Server.QueryText(Server.BuildFirebaseQuery(target, qType, motivation)) ==
            MessagesResource.BuildQuery(target, qType, motivation)
  {
    var java := MessagesResource.BuildQuery(target, qType, motivation);
    assert java == [java[0]] + java[1..];
    if qType != "" {
      TypeParamsText(qType);
      assert java[1..] == MessagesResource.TypeClause(qType) + "";
    } else {
      TargetParamsText(target);
      assert java[1..] == "" + MessagesResource.TargetClause(target);
    }
  }

  /** With both set, server.js filters on `type` alone and the Java resource runs both clauses together. */
  lemma QueriesDivergeWhenBothSet(target: string, qType: string, motivation: string)
    requires qType != "" && target != ""
    ensures Server.QueryText(Server.BuildFirebaseQuery(target, qType, motivation)) == "?" + MessagesResource.TypeClause(qType)
    ensures MessagesResource.BuildQuery(target, qType, motivation) ==
            "?" + MessagesResource.TypeClause(qType) + MessagesResource.TargetClause(target)
  {
    TypeParamsText(qType);
    var java := MessagesResource.BuildQuery(target, qType, motivation);
    assert java == [java[0]] + java[1..];
  }

  /** A motivation-only listing queries the whole store in server.js and sends a lone `?` in Java. */
  lemma QueriesDivergeOnMotivationOnly(motivation: string)
    requires motivation != ""
    ensures Server.QueryText(Server.BuildFirebaseQuery("", "", motivation)) == ""
    ensures MessagesResource.BuildQuery("", "", motivation) == "?"
  {
    MessagesResource.MotivationOnlyQuery(motivation);
  }

  /** With `ID_ROOT` unset, server.js's container is exactly the Java `formatList`. */
  lemma ContainersAgreeOnDefaultRoot(target: string, ms: seq<Obj>)
    ensures Server.Container(Server.IdRoot(None), target, ms) == MessagesResource.FormatList(target, ms)
  {
    assert Server.DefaultIdRoot + "/messages?target=" + target == MessagesResource.IdRoot + "?target=" + target;
  }

  /**
   * With `ID_ROOT` unset and an inserting `generate`, a stored item without
   * `@id` is listed by both services with the same `@id`.
   */
  lemma ItemIdsAgreeOnDefaultRoot(key: string, doc: Obj, motivation: string, generate: MessagesResource.Generate)
    requires MessagesResource.IsInsert(generate) && "@id" !in Keys(doc)
    ensures Lookup(Server.Stamp(Server.IdRoot(None), Server.Stored(key, doc)), "@id") ==
            Lookup(MessagesResource.EntryStep(Entry(key, Object(doc)), motivation, generate).item, "@id")
  {
    assert Server.MessageId(Server.DefaultIdRoot, key) == MessagesResource.ItemIdRoot + key;
  }

  /**
   * A stored item with `"@id": ""` (which `POST` on server.js accepts) keeps
   * that empty `@id` in the server.js listing, while the Java resource
   * lists it under `http://inbox.rerum.io/id/<key>`.
   */
  lemma FalsyStoredIdSplitsTheIds(key: string, doc: Obj, motivation: string, generate: MessagesResource.Generate)
    requires MessagesResource.IsInsert(generate) && Lookup(doc, "@id") == Some(Str(""))
    ensures Lookup(Server.Stamp(Server.IdRoot(None), Server.Stored(key, doc)), "@id") == Some(Str(""))
    ensures Lookup(MessagesResource.EntryStep(Entry(key, Object(doc)), motivation, generate).item, "@id") ==
            Some(Str(MessagesResource.ItemIdRoot + key))
  {
  }
}
