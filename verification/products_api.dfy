/** The protected POST handler of the products endpoint: API-key check,
    JSON body, and the new product record built from defaults overridden
    by the body's own fields. */
module ProductsApi {
  import opened Wrappers
  import opened Seqs
  import opened Text

  /** A parsed JSON value. Numbers are kept as integers. */
  datatype Json =
    | JNull
    | JBool(b: bool)
    | JNumber(n: int)
    | JString(s: string)
    | JArray(elems: seq<Json>)
    | JObject(fields: map<string, Json>)

  /** JavaScript truthiness of a parsed JSON value. */
  predicate Truthy(v: Json) {
    match v
    case JNull => false
    case JBool(b) => b
    case JNumber(n) => n != 0
    case JString(s) => s != ""
    case JArray(_) => true
    case JObject(_) => true
  }

  // ---------------------------------------------------------------------
  // The slug: `name.toLowerCase().replace(/\s+/g, '-')`

  predicate WhitespaceFree(s: string) {
    forall i :: 0 <= i < |s| ==> !IsWhitespace(s[i])
  }

  /** `.replace(/\s+/g, '-')`, scanning left to right: each maximal run of
      white space becomes one dash. `inRun` says that the character before
      `s` was white space, whose run already has its dash. */
  function ReplaceWhitespaceRuns(s: string, inRun: bool): (r: string)
    ensures |r| <= |s|
    ensures WhitespaceFree(r)
    ensures forall i :: 0 <= i < |r| ==> r[i] == '-' || r[i] in s
  {
    if s == [] then []
    else
      var tail := ReplaceWhitespaceRuns(s[1..], IsWhitespace(s[0]));
      assert forall i :: 0 <= i < |tail| ==> tail[i] == '-' || tail[i] in s by {
        forall i | 0 <= i < |tail| && tail[i] != '-' ensures tail[i] in s {
          var k :| 0 <= k < |s[1..]| && s[1..][k] == tail[i];
          assert s[1 + k] == tail[i];
        }
      }
      if !IsWhitespace(s[0]) then [s[0]] + tail
      else if inRun then tail
      else "-" + tail
  }

  /** Strings without white space are left alone. */
  lemma {:induction false} ReplaceKeepsWhitespaceFree(s: string)
    requires WhitespaceFree(s)
    ensures ReplaceWhitespaceRuns(s, false) == s
  {
    if s != [] {
      assert !IsWhitespace(s[0]);
      assert WhitespaceFree(s[1..]) by {
        assert forall i :: 0 <= i < |s[1..]| ==> s[1..][i] == s[i + 1];
      }
      ReplaceKeepsWhitespaceFree(s[1..]);
    }
  }

  /** The replacement changes a string exactly when it holds white space. */
  lemma ReplaceFixedPoints(s: string)
    ensures ReplaceWhitespaceRuns(s, false) == s <==> WhitespaceFree(s)
  {
    if WhitespaceFree(s) {
      ReplaceKeepsWhitespaceFree(s);
    }
  }

  lemma ReplaceIdempotent(s: string)
    ensures ReplaceWhitespaceRuns(ReplaceWhitespaceRuns(s, false), false) == ReplaceWhitespaceRuns(s, false)
  {
    ReplaceKeepsWhitespaceFree(ReplaceWhitespaceRuns(s, false));
  }

  /** The scan restarts cleanly after a character that is not white space:
      what follows is replaced on its own. */
  lemma {:induction false} ReplaceAppend(x: string, y: string, inRun: bool)
    requires x != [] && !IsWhitespace(x[|x| - 1])
    ensures ReplaceWhitespaceRuns(x + y, inRun) == ReplaceWhitespaceRuns(x, inRun) + ReplaceWhitespaceRuns(y, false)
  {
    assert (x + y)[1..] == x[1..] + y;
    if |x| == 1 {
      assert x[1..] == [];
      assert (x + y)[1..] == y;
    } else {
      ReplaceAppend(x[1..], y, IsWhitespace(x[0]));
    }
  }

  /** Each maximal run of white space, wherever it stands, becomes exactly
      one dash, and the text on either side is replaced on its own. */
  lemma {:induction false} RunBecomesOneDash(x: string, w: string, rest: string)
    requires x == [] || !IsWhitespace(x[|x| - 1])
    requires w != [] && forall i :: 0 <= i < |w| ==> IsWhitespace(w[i])
    requires rest == [] || !IsWhitespace(rest[0])
    ensures ReplaceWhitespaceRuns(x + w + rest, false) ==
      ReplaceWhitespaceRuns(x, false) + "-" + ReplaceWhitespaceRuns(rest, false)
  {
    RunAtStart(w, rest);
    if x == [] {
      assert x + w + rest == w + rest;
    } else {
      assert x + w + rest == x + (w + rest);
      ReplaceAppend(x, w + rest, false);
    }
  }

  /** A run at the very start becomes one leading dash. */
  lemma RunAtStart(w: string, rest: string)
    requires w != [] && forall i :: 0 <= i < |w| ==> IsWhitespace(w[i])
    requires rest == [] || !IsWhitespace(rest[0])
    ensures ReplaceWhitespaceRuns(w + rest, false) == "-" + ReplaceWhitespaceRuns(rest, false)
  {
    assert (w + rest)[1..] == w[1..] + rest;
    assert IsWhitespace((w + rest)[0]);
    RunIsSkipped(w[1..], rest);
  }

  /** Two words joined by a run of white space become the two words joined
      by one dash: "Steel  Watch" gives "Steel-Watch". */
  lemma SlugWords(a: string, w: string, b: string)
    requires WhitespaceFree(a) && WhitespaceFree(b)
    requires w != [] && forall i :: 0 <= i < |w| ==> IsWhitespace(w[i])
    ensures ReplaceWhitespaceRuns(a + w + b, false) == a + "-" + b
  {
    RunBecomesOneDash(a, w, b);
    ReplaceKeepsWhitespaceFree(a);
    ReplaceKeepsWhitespaceFree(b);
  }

  /** Inside a run, the rest of the run adds nothing. */
  lemma {:induction false} RunIsSkipped(w: string, rest: string)
    requires forall i :: 0 <= i < |w| ==> IsWhitespace(w[i])
    requires rest == [] || !IsWhitespace(rest[0])
    ensures ReplaceWhitespaceRuns(w + rest, true) == ReplaceWhitespaceRuns(rest, false)
  {
    if w == [] {
      assert w + rest == rest;
    } else {
      assert (w + rest)[1..] == w[1..] + rest;
      RunIsSkipped(w[1..], rest);
    }
  }

  /** A character that the replacement neither removes nor introduces. */
  function IsKept(): char -> bool {
    (c: char) => !IsWhitespace(c) && c != '-'
  }

  /** Apart from white space and dashes, the characters and their order are unchanged. */
  lemma {:induction false} ReplaceKeepsOtherCharacters(s: string, inRun: bool)
    ensures Filter(ReplaceWhitespaceRuns(s, inRun), IsKept()) == Filter(s, IsKept())
  {
    if s != [] {
      var f := IsKept();
      var tail := ReplaceWhitespaceRuns(s[1..], IsWhitespace(s[0]));
      ReplaceKeepsOtherCharacters(s[1..], IsWhitespace(s[0]));
      FilterCons(s, f);
      if !IsWhitespace(s[0]) {
        FilterCons([s[0]] + tail, f);
        assert ([s[0]] + tail)[1..] == tail;
      } else if !inRun {
        FilterCons("-" + tail, f);
        assert ("-" + tail)[1..] == tail;
      }
    }
  }

  /** The `slug` default: lower-cased name, white-space runs turned into dashes. */
  function Slugify(name: string): string {
    ReplaceWhitespaceRuns(Lower(name), false)
  }

  /** A slug has no white space and is its own slug. */
  lemma SlugIsStable(name: string)
    ensures WhitespaceFree(Slugify(name))
    ensures Slugify(Slugify(name)) == Slugify(name)
  {
    var s := Slugify(name);
    forall i | 0 <= i < |s| ensures LowerChar(s[i]) == s[i] {
      if s[i] != '-' {
        var j :| 0 <= j < |name| && Lower(name)[j] == s[i];
      }
    }
    assert Lower(s) == s;
    ReplaceKeepsWhitespaceFree(s);
  }

  // ---------------------------------------------------------------------
  // The id: `Date.now().toString()`

  function DigitChar(d: nat): (c: char)
    requires d < 10
    ensures '0' <= c <= '9' && c as int - '0' as int == d
  {
    ('0' as int + d) as char
  }

  predicate AllDigits(s: string) {
    forall i :: 0 <= i < |s| ==> '0' <= s[i] <= '9'
  }

  /** The decimal numeral of `n`, without leading zeros. */
  function DecimalString(n: nat): (s: string)
    ensures |s| >= 1 && AllDigits(s)
    ensures s[0] == '0' ==> n == 0
    decreases n
  {
    if n < 10 then [DigitChar(n)] else DecimalString(n / 10) + [DigitChar(n % 10)]
  }

  /** The number a string of decimal digits denotes. */
  function DecimalValue(s: string): nat
    requires AllDigits(s)
  {
    if s == [] then 0
    else DecimalValue(s[..|s| - 1]) * 10 + (s[|s| - 1] as int - '0' as int)
  }

  lemma {:induction false} DecimalRoundTrip(n: nat)
    ensures DecimalValue(DecimalString(n)) == n
    decreases n
  {
    if n >= 10 {
      DecimalRoundTrip(n / 10);
      var s := DecimalString(n);
      assert s[..|s| - 1] == DecimalString(n / 10);
    }
  }

  /** Distinct clock readings give distinct ids. */
  lemma DecimalStringInjective(a: nat, b: nat)
    ensures DecimalString(a) == DecimalString(b) ==> a == b
  {
    DecimalRoundTrip(a);
    DecimalRoundTrip(b);
  }

  // ---------------------------------------------------------------------
  // The handler

  const DefaultImage: string := "/images/watch1.jpg"

  /** The parts of the incoming request the handler reads: the `x-api-key`
      header and the body, `None` when it is not valid JSON. */
  datatype Request = Request(apiKey: Option<string>, body: Option<Json>)

  datatype Response = Response(status: int, body: Json)

  function ErrorResponse(status: int, message: string): Response {
    Response(status, JObject(map["error" := JString(message)]))
  }

  /** `apiKey !== process.env.ADMIN_API_KEY` fails: a missing header (null)
      never equals a missing variable (undefined). */
  function Authorized(header: Option<string>, adminKey: Option<string>): (b: bool)
    ensures b <==> exists k :: header == Some(k) && adminKey == Some(k)
  {
    header.Some? && adminKey.Some? && header.value == adminKey.value
  }

  /** `body.name.toLowerCase()` succeeds only on an object whose `name` is a string. */
  function NameOf(body: Json): (name: Option<string>)
    ensures name.Some? <==> body.JObject? && "name" in body.fields && body.fields["name"].JString?
    ensures name.Some? ==> body.fields["name"] == JString(name.value)
  {
    if body.JObject? && "name" in body.fields && body.fields["name"].JString? then
      Some(body.fields["name"].s)
    else None
  }

  /** The `image` the literal computes before the spread: `body.image || DefaultImage`. */
  function ImageDefault(fields: map<string, Json>): Json {
    if "image" in fields && Truthy(fields["image"]) then fields["image"] else JString(DefaultImage)
  }

  /** The object literal: generated fields first, then `...body`, whose keys win. */
  function NewProduct(fields: map<string, Json>, name: string, now: nat, isoNow: string): map<string, Json> {
    map["id" := JString(DecimalString(now)),
        "slug" := JString(Slugify(name)),
        "lastUpdated" := JString(isoNow),
        "image" := ImageDefault(fields)] + fields
  }

  /** POST: 401 without the admin key, 500 when the body cannot be read,
      201 with the new record otherwise. `now` is `Date.now()` and
      `isoNow` is `new Date().toISOString()`. */
  function Post(req: Request, adminKey: Option<string>, now: nat, isoNow: string): (r: Response)
    ensures r.status == 401 <==> !Authorized(req.apiKey, adminKey)
    ensures r.status == 201 <==> Authorized(req.apiKey, adminKey) && req.body.Some? && NameOf(req.body.value).Some?
    ensures r.status == 201 || r.status == 401 || r.status == 500
  {
    if !Authorized(req.apiKey, adminKey) then ErrorResponse(401, "Unauthorized")
    else match req.body
      case None => ErrorResponse(500, "Failed to create product")
      case Some(body) =>
        match NameOf(body)
        case None => ErrorResponse(500, "Failed to create product")
        case Some(name) => Response(201, JObject(NewProduct(body.fields, name, now, isoNow)))
  }

  /** The created record holds every field of the body unchanged, plus the
      four generated ones, and nothing else. */
  lemma PostBodyWins(req: Request, adminKey: Option<string>, now: nat, isoNow: string)
    requires Post(req, adminKey, now, isoNow).status == 201
    ensures var r := Post(req, adminKey, now, isoNow);
            var fields := req.body.value.fields;
            && r.body.JObject?
            && r.body.fields.Keys == fields.Keys + {"id", "slug", "lastUpdated", "image"}
            && (forall k :: k in fields ==> r.body.fields[k] == fields[k])
  {
  }

  /** Fields the body leaves out get the generated values. */
  lemma PostDefaults(req: Request, adminKey: Option<string>, now: nat, isoNow: string)
    requires Post(req, adminKey, now, isoNow).status == 201
    ensures var out := Post(req, adminKey, now, isoNow).body.fields;
            var fields := req.body.value.fields;
            && ("id" !in fields ==> out["id"] == JString(DecimalString(now)))
            && ("slug" !in fields ==> out["slug"] == JString(Slugify(fields["name"].s)))
            && ("lastUpdated" !in fields ==> out["lastUpdated"] == JString(isoNow))
            && ("image" !in fields ==> out["image"] == JString(DefaultImage))
  {
  }

  /** The `|| '/images/watch1.jpg'` fallback never shows: a body that sends
      a falsy `image` (here the empty string) keeps it, because the spread
      comes after the fallback. */
  lemma EmptyImageIsKept(key: string, now: nat, isoNow: string)
    ensures var body := JObject(map["name" := JString("Watch"), "image" := JString("")]);
            var r := Post(Request(Some(key), Some(body)), Some(key), now, isoNow);
            r.status == 201 && r.body.fields["image"] == JString("")
  {
  }

  /** The record with the image fallback applied after the spread, so that a
      falsy `image` in the body is replaced as well. */
  function NewProductWithImage(fields: map<string, Json>, name: string, now: nat, isoNow: string): (m: map<string, Json>)
    ensures m.Keys == NewProduct(fields, name, now, isoNow).Keys
    ensures forall k :: k in m && k != "image" ==> m[k] == NewProduct(fields, name, now, isoNow)[k]
    ensures Truthy(m["image"])
    ensures "image" in fields && Truthy(fields["image"]) ==> m["image"] == fields["image"]
  {
    NewProduct(fields, name, now, isoNow)["image" := ImageDefault(fields)]
  }

  /** POST as evidently intended: as `Post`, but the created record's
      image is the body's when truthy and the default otherwise. */
  function PostIntended(req: Request, adminKey: Option<string>, now: nat, isoNow: string): (r: Response)
    ensures r.status == Post(req, adminKey, now, isoNow).status
    ensures r.status != 201 ==> r == Post(req, adminKey, now, isoNow)
    ensures r.status == 201 ==> r.body.JObject? && "image" in r.body.fields && Truthy(r.body.fields["image"])
  {
    var r := Post(req, adminKey, now, isoNow);
    if r.status == 201 then
      var body := req.body.value;
      Response(201, JObject(NewProductWithImage(body.fields, NameOf(body).value, now, isoNow)))
    else r
  }
}
