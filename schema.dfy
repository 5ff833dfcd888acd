/**
 * The records of the service and the zod rules that admit request bodies
 * (shared/schema.ts). A request body is a JSON value; parsing either yields
 * the typed payload, with every key the schema does not know stripped, or
 * lists one issue per rejected field. Whether a string is a well-formed email
 * address is decided by zod's own regular expression, which is not modelled:
 * every rule that needs it takes it as the parameter `isEmail`.
 */
module Schema {
  import opened Wrappers

  /** A JSON value as it reaches the server; null, booleans and arrays are `JOther`. */
  datatype Json = JString(str: string) | JNumber(num: real) | JObject(fields: map<string, Json>) | JOther

  /** A stored feedback row (table `feedback`); `None` is SQL null / JavaScript absent. */
  datatype Feedback = Feedback(
    id: int,
    name: string,
    email: Option<string>,
    rating: int,
    comment: string,
    timestamp: int,            // milliseconds since the epoch
    ipAddress: Option<string>,
    userAgent: Option<string>)

  /** The creation payload: the row without `id`, `timestamp`, `ip_address` and `user_agent`. */
  datatype InsertFeedback = InsertFeedback(name: string, email: Option<string>, rating: int, comment: string)

  /** The update payload: the creation payload with every field optional. */
  datatype FeedbackPatch = FeedbackPatch(name: Option<string>, email: Option<string>, rating: Option<int>, comment: Option<string>)

  /** A stored account row (table `users`). */
  datatype User = User(id: int, username: string, email: string, password: string, createdAt: int)

  /** The account payload: exactly `username`, `email` and `password`. */
  datatype InsertUser = InsertUser(username: string, email: string, password: string)

  /** One validation issue: the body is not an object, or the named key is rejected. */
  datatype Issue = NotAnObject | Rejected(key: string)

  const MaxNameLength: nat := 100
  const MaxCommentLength: nat := 500

  /** `z.string().min(1).max(100)`: at most 100 characters is accepted. */
  predicate NameOk(s: string) {
    1 <= |s| <= MaxNameLength
  }

  /** `z.string().email().optional().or(z.literal(""))` on a present string. */
  predicate EmailOk(s: string, isEmail: string -> bool) {
    isEmail(s) || s == ""
  }

  /** `z.number().min(1).max(5)` exactly as written: any number in [1, 5], fractions included. */
  predicate RatingAcceptedAsWritten(x: real) {
    1.0 <= x <= 5.0
  }

  /** The rating rule the column type and the star widget call for: a whole number of stars from 1 to 5. */
  predicate RatingAccepted(x: real) {
    x == x.Floor as real && 1.0 <= x <= 5.0
  }

  /** `z.string().min(1).max(500)` */
  predicate CommentOk(s: string) {
    1 <= |s| <= MaxCommentLength
  }

  /** The four keys of the feedback payload, in the schema's order. */
  const FeedbackKeys: seq<string> := ["name", "email", "rating", "comment"]

  /**
   * The rule for one payload key. An absent key is accepted when the key is
   * optional (`email` always, every key in the partial schema).
   */
  predicate KeyAccepted(fields: map<string, Json>, key: string, isEmail: string -> bool, partial: bool) {
    if key !in fields then partial || key == "email"
    else
      var v := fields[key];
      if key == "name" then v.JString? && NameOk(v.str)
      else if key == "email" then v.JString? && EmailOk(v.str, isEmail)
      else if key == "rating" then v.JNumber? && RatingAccepted(v.num)
      else if key == "comment" then v.JString? && CommentOk(v.str)
      else true
  }

  /** Every rejected key of the payload, one issue each, in the schema's order. */
  function FieldIssues(fields: map<string, Json>, isEmail: string -> bool, partial: bool): (issues: seq<Issue>)
    ensures forall key :: Rejected(key) in issues <==> key in FeedbackKeys && !KeyAccepted(fields, key, isEmail, partial)
    ensures NotAnObject !in issues
  {
    (if KeyAccepted(fields, "name", isEmail, partial) then [] else [Rejected("name")]) +
    (if KeyAccepted(fields, "email", isEmail, partial) then [] else [Rejected("email")]) +
    (if KeyAccepted(fields, "rating", isEmail, partial) then [] else [Rejected("rating")]) +
    (if KeyAccepted(fields, "comment", isEmail, partial) then [] else [Rejected("comment")])
  }

  function OptionalString(fields: map<string, Json>, key: string): Option<string> {
    if key in fields && fields[key].JString? then Some(fields[key].str) else None
  }

  function OptionalRating(fields: map<string, Json>): Option<int> {
    if "rating" in fields && fields["rating"].JNumber? then Some(fields["rating"].num.Floor) else None
  }

  /** `insertFeedbackSchema.parse(body)` */
  function ParseInsertFeedback(body: Json, isEmail: string -> bool): (r: Result<InsertFeedback, seq<Issue>>)
    ensures r.Success? <==> body.JObject? && forall key :: key in FeedbackKeys ==> KeyAccepted(body.fields, key, isEmail, false)
    ensures r.Failure? ==> r.error != []
    ensures r.Failure? && body.JObject? ==> r.error == FieldIssues(body.fields, isEmail, false)
    ensures r.Success? ==> InsertOk(r.value, isEmail)
  {
    if !body.JObject? then Failure([NotAnObject])
    else
      var f := body.fields;
      var issues := FieldIssues(f, isEmail, false);
      if issues != [] then Failure(issues)
      else
        assert forall key :: key in FeedbackKeys ==> KeyAccepted(f, key, isEmail, false) by {
          forall key | key in FeedbackKeys ensures KeyAccepted(f, key, isEmail, false) {
            assert Rejected(key) !in issues;
          }
        }
        Success(InsertFeedback(f["name"].str, OptionalString(f, "email"), f["rating"].num.Floor, f["comment"].str))
  }

  /** `insertFeedbackSchema.partial().parse(body)` */
  function ParseFeedbackPatch(body: Json, isEmail: string -> bool): (r: Result<FeedbackPatch, seq<Issue>>)
    ensures r.Success? <==> body.JObject? && forall key :: key in FeedbackKeys ==> KeyAccepted(body.fields, key, isEmail, true)
    ensures r.Failure? ==> r.error != []
    ensures r.Failure? && body.JObject? ==> r.error == FieldIssues(body.fields, isEmail, true)
    ensures r.Success? ==> PatchOk(r.value, isEmail)
  {
    if !body.JObject? then Failure([NotAnObject])
    else
      var f := body.fields;
      var issues := FieldIssues(f, isEmail, true);
      if issues != [] then Failure(issues)
      else
        assert forall key :: key in FeedbackKeys ==> KeyAccepted(f, key, isEmail, true) by {
          forall key | key in FeedbackKeys ensures KeyAccepted(f, key, isEmail, true) {
            assert Rejected(key) !in issues;
          }
        }
        Success(FeedbackPatch(OptionalString(f, "name"), OptionalString(f, "email"), OptionalRating(f), OptionalString(f, "comment")))
  }

  /** A typed creation payload that satisfies every field rule. */
  ghost predicate InsertOk(p: InsertFeedback, isEmail: string -> bool) {
    && NameOk(p.name)
    && (p.email.Some? ==> EmailOk(p.email.value, isEmail))
    && 1 <= p.rating <= 5
    && CommentOk(p.comment)
  }

  /** A typed update payload whose every present field satisfies its rule. */
  ghost predicate PatchOk(p: FeedbackPatch, isEmail: string -> bool) {
    && (p.name.Some? ==> NameOk(p.name.value))
    && (p.email.Some? ==> EmailOk(p.email.value, isEmail))
    && (p.rating.Some? ==> 1 <= p.rating.value <= 5)
    && (p.comment.Some? ==> CommentOk(p.comment.value))
  }

  /** The bounds every stored row keeps when it was admitted through the schema (email aside). */
  ghost predicate RecordOk(f: Feedback) {
    NameOk(f.name) && 1 <= f.rating <= 5 && CommentOk(f.comment)
  }

  /** The JSON body a client sends for a typed creation payload. */
  function InsertToJson(p: InsertFeedback): Json {
    var base := map["name" := JString(p.name), "rating" := JNumber(p.rating as real), "comment" := JString(p.comment)];
    JObject(if p.email.Some? then base["email" := JString(p.email.value)] else base)
  }

  /** The JSON body a client sends for a typed update payload. */
  function PatchToJson(p: FeedbackPatch): Json {
    var m0: map<string, Json> := map[];
    var m1 := if p.name.Some? then m0["name" := JString(p.name.value)] else m0;
    var m2 := if p.email.Some? then m1["email" := JString(p.email.value)] else m1;
    var m3 := if p.rating.Some? then m2["rating" := JNumber(p.rating.value as real)] else m2;
    var m4 := if p.comment.Some? then m3["comment" := JString(p.comment.value)] else m3;
    JObject(m4)
  }

  /** Every valid creation payload is admitted unchanged: parsing inverts serialising. */
  lemma InsertRoundTrip(p: InsertFeedback, isEmail: string -> bool)
    requires InsertOk(p, isEmail)
    ensures ParseInsertFeedback(InsertToJson(p), isEmail) == Success(p)
  {
    var f := InsertToJson(p).fields;
    assert (p.rating as real).Floor == p.rating;
    assert forall key :: key in FeedbackKeys ==> KeyAccepted(f, key, isEmail, false);
  }

  /** Every valid update payload is admitted unchanged: parsing inverts serialising. */
  lemma PatchRoundTrip(p: FeedbackPatch, isEmail: string -> bool)
    requires PatchOk(p, isEmail)
    ensures ParseFeedbackPatch(PatchToJson(p), isEmail) == Success(p)
  {
    var f := PatchToJson(p).fields;
    assert p.rating.Some? ==> (p.rating.value as real).Floor == p.rating.value;
    assert forall key :: key in FeedbackKeys ==> KeyAccepted(f, key, isEmail, true);
  }

  /**
   * Keys outside the payload (`id`, `timestamp`, `ip_address`, `user_agent`,
   * or anything else) are stripped: they never change the outcome, so a
   * client cannot set server-assigned fields.
   */
  lemma UnknownKeysIgnored(fields: map<string, Json>, key: string, v: Json, isEmail: string -> bool)
    requires key !in FeedbackKeys
    ensures ParseInsertFeedback(JObject(fields[key := v]), isEmail) == ParseInsertFeedback(JObject(fields), isEmail)
    ensures ParseFeedbackPatch(JObject(fields[key := v]), isEmail) == ParseFeedbackPatch(JObject(fields), isEmail)
  {
    var g := fields[key := v];
    assert SameOnPayload(g, fields) by {
      forall k | k in FeedbackKeys ensures (k in g <==> k in fields) && (k in g ==> g[k] == fields[k]) {
        assert k != key;
      }
    }
    SameOnPayloadSameParse(g, fields, isEmail);
  }

  /** Two bodies that agree on the four payload keys. */
  ghost predicate SameOnPayload(g: map<string, Json>, f: map<string, Json>) {
    forall k :: k in FeedbackKeys ==> (k in g <==> k in f) && (k in g ==> g[k] == f[k])
  }

  lemma SameOnPayloadSameParse(g: map<string, Json>, f: map<string, Json>, isEmail: string -> bool)
    requires SameOnPayload(g, f)
    ensures ParseInsertFeedback(JObject(g), isEmail) == ParseInsertFeedback(JObject(f), isEmail)
    ensures ParseFeedbackPatch(JObject(g), isEmail) == ParseFeedbackPatch(JObject(f), isEmail)
  {
    SameOnPayloadSameIssues(g, f, isEmail, false);
    SameOnPayloadSameIssues(g, f, isEmail, true);
  }

  lemma SameOnPayloadSameIssues(g: map<string, Json>, f: map<string, Json>, isEmail: string -> bool, partial: bool)
    requires SameOnPayload(g, f)
    ensures FieldIssues(g, isEmail, partial) == FieldIssues(f, isEmail, partial)
    ensures OptionalString(g, "name") == OptionalString(f, "name")
    ensures OptionalString(g, "email") == OptionalString(f, "email")
    ensures OptionalString(g, "comment") == OptionalString(f, "comment")
    ensures OptionalRating(g) == OptionalRating(f)
  {
    SameKey(g, f, "name", isEmail, partial);
    SameKey(g, f, "email", isEmail, partial);
    SameKey(g, f, "rating", isEmail, partial);
    SameKey(g, f, "comment", isEmail, partial);
  }

  lemma SameKey(g: map<string, Json>, f: map<string, Json>, k: string, isEmail: string -> bool, partial: bool)
    requires SameOnPayload(g, f) && k in FeedbackKeys
    ensures KeyAccepted(g, k, isEmail, partial) == KeyAccepted(f, k, isEmail, partial)
    ensures OptionalString(g, k) == OptionalString(f, k)
    ensures k == "rating" ==> OptionalRating(g) == OptionalRating(f)
  {
  }

  /** The empty patch `{}` is valid and changes nothing. */
  lemma EmptyPatchAccepted(isEmail: string -> bool)
    ensures ParseFeedbackPatch(JObject(map[]), isEmail) == Success(FeedbackPatch(None, None, None, None))
  {
  }

  /** A body the creation schema admits is admitted by the partial schema, with every field present. */
  lemma InsertBodyIsPatchBody(body: Json, isEmail: string -> bool)
    requires ParseInsertFeedback(body, isEmail).Success?
    ensures ParseFeedbackPatch(body, isEmail).Success?
    ensures var p := ParseInsertFeedback(body, isEmail).value;
      ParseFeedbackPatch(body, isEmail).value == FeedbackPatch(Some(p.name), p.email, Some(p.rating), Some(p.comment))
  {
    var f := body.fields;
    assert forall key :: key in FeedbackKeys ==> KeyAccepted(f, key, isEmail, false);
    assert forall key :: key in FeedbackKeys ==> KeyAccepted(f, key, isEmail, true);
  }

  /** The length bounds are inclusive: 100 and 500 characters are accepted, 0, 101 and 501 are not. */
  lemma LengthBounds(s: string)
    ensures |s| == 100 ==> NameOk(s)
    ensures |s| == 0 || |s| == 101 ==> !NameOk(s)
    ensures |s| == 500 ==> CommentOk(s)
    ensures |s| == 0 || |s| == 501 ==> !CommentOk(s)
  {
  }

  /** The empty email is accepted as "no email"; any other string must pass the email check. */
  lemma EmailRule(fields: map<string, Json>, isEmail: string -> bool, partial: bool)
    ensures "email" !in fields ==> KeyAccepted(fields, "email", isEmail, partial)
    ensures "email" in fields && fields["email"] == JString("") ==> KeyAccepted(fields, "email", isEmail, partial)
    ensures "email" in fields && fields["email"].JString? && fields["email"].str != "" ==>
              (KeyAccepted(fields, "email", isEmail, partial) <==> isEmail(fields["email"].str))
    ensures "email" in fields && !fields["email"].JString? ==> !KeyAccepted(fields, "email", isEmail, partial)
  {
  }

  /** A fraction of a star is let through by the rule as written but not by the intended one. */
  lemma FractionalRatingSlipsThrough()
    ensures RatingAcceptedAsWritten(2.5) && !RatingAccepted(2.5)
  {
    assert (2.5).Floor == 2;
  }

  /** An accepted rating is a whole number of stars from 1 to 5. */
  lemma AcceptedRatingIsWholeStars(x: real)
    requires RatingAccepted(x)
    ensures x == x.Floor as real && 1 <= x.Floor <= 5
    ensures RatingAcceptedAsWritten(x)
  {
  }

  /** `insertUserSchema.parse(body)`: the three text columns `username`, `email` and `password`. */
  function ParseInsertUser(body: Json): (r: Result<InsertUser, seq<Issue>>)
    ensures r.Success? <==> body.JObject? && forall key :: key in UserKeys ==> key in body.fields && body.fields[key].JString?
    ensures r.Success? ==> r.value.username == body.fields["username"].str
    ensures r.Success? ==> r.value.email == body.fields["email"].str
    ensures r.Success? ==> r.value.password == body.fields["password"].str
  {
    if !body.JObject? then Failure([NotAnObject])
    else
      var f := body.fields;
      var issues :=
        (if "username" in f && f["username"].JString? then [] else [Rejected("username")]) +
        (if "email" in f && f["email"].JString? then [] else [Rejected("email")]) +
        (if "password" in f && f["password"].JString? then [] else [Rejected("password")]);
      if issues != [] then Failure(issues)
      else Success(InsertUser(f["username"].str, f["email"].str, f["password"].str))
  }

  const UserKeys: seq<string> := ["username", "email", "password"]

  /** Only the three picked keys matter: `id` and `created_at` in a body are stripped. */
  lemma UserUnknownKeysIgnored(fields: map<string, Json>, key: string, v: Json)
    requires key !in UserKeys
    ensures ParseInsertUser(JObject(fields[key := v])) == ParseInsertUser(JObject(fields))
  {
    var g := fields[key := v];
    assert forall k :: k in UserKeys ==> (k in g <==> k in fields) && (k in g ==> g[k] == fields[k]);
  }
}
