/**
 * `SlackClient` from scripts/slack_client.py, as the requests it builds.
 *
 * Each API method of the Python class returns what `_post` got back from
 * the network; here it returns the `Request` it would send: the name of
 * the API method (posted to `Url(r)`), the form fields and the cookies. The transport and the server's
 * answer are outside the model. The client's fields are set once in
 * `__init__` and never changed, so the client is a value.
 */
module SlackClient {
  import opened Wrappers
  import opened PyStr

  const BASE_URL := "https://slack.com/api"

  /** The browser user agent used when none (or an empty one) is configured. */
  const DEFAULT_USER_AGENT :=
    "Mozilla/5.0 (Macintosh; Intel Mac OS X 10_15_7) "
    + "AppleWebKit/537.36 (KHTML, like Gecko) "
    + "Chrome/143.0.0.0 Safari/537.36"

  /** Form-encoded fields of one POST, keyed by field name. */
  type Form = map<string, string>

  /** The browser tokens and user agent the client was created with. */
  datatype Client = Client(token: string, cookies: Form, userAgent: string)

  /** One POST as the client would send it: the API method it names, its form fields and its cookies. */
  datatype Request = Request(endpoint: string, form: Form, cookies: Form)

  /** The URL a request is posted to, `f"{BASE_URL}/{endpoint}"`. */
  function Url(r: Request): string
  {
    BASE_URL + "/" + r.endpoint
  }

  /** `SlackClient(xoxc_token, xoxd_token, user_agent)`. */
  function NewClient(xoxcToken: string, xoxdToken: string, userAgent: Option<string>): (c: Client)
    ensures c.token == xoxcToken
    ensures c.cookies.Keys == {"d"} && c.cookies["d"] == xoxdToken
    ensures Truthy(userAgent) ==> c.userAgent == userAgent.value
    ensures !Truthy(userAgent) ==> c.userAgent == DEFAULT_USER_AGENT
  {
    Client(xoxcToken, map["d" := xoxdToken], if Truthy(userAgent) then userAgent.value else DEFAULT_USER_AGENT)
  }

  /** The names of the fields `_post` sends with every call. */
  const STEALTH_KEYS: set<string> := {"token", "_x_reason", "_x_mode", "_x_sonic", "_x_app_name"}

  /** The fields `_post` sends with every call, before the caller's own. */
  function StealthFields(token: string): (f: Form)
    ensures f.Keys == STEALTH_KEYS
    ensures f["token"] == token
  {
    map["token" := token, "_x_reason" := "api-call", "_x_mode" := "online",
        "_x_sonic" := "true", "_x_app_name" := "client"]
  }

  /** Python's `data or {}`: no data and an empty dict both add nothing. */
  function OrEmpty(data: Option<Form>): Form
  {
    if data.Some? then data.value else map[]
  }

  /**
   * The payload literal of `_post`: the stealth fields, then `**(data or {})`,
   * so on a shared key the caller's value is the one that stays.
   */
  function Payload(token: string, data: Option<Form>): Form
  {
    StealthFields(token) + OrEmpty(data)
  }

  /**
   * What the payload holds: every stealth field and every caller field and
   * nothing else; the caller's value wherever the caller gave one, the
   * stealth default everywhere else.
   */
  lemma PayloadMerge(token: string, data: Option<Form>)
    ensures Payload(token, data).Keys == STEALTH_KEYS + OrEmpty(data).Keys
    ensures forall k :: k in OrEmpty(data) ==> Payload(token, data)[k] == OrEmpty(data)[k]
    ensures forall k :: k in STEALTH_KEYS && k !in OrEmpty(data) ==> Payload(token, data)[k] == StealthFields(token)[k]
  {
  }

  /** `_post(endpoint, data)`: the request it sends. */
  function Post(c: Client, endpoint: string, data: Option<Form>): Request
  {
    Request(endpoint, Payload(c.token, data), c.cookies)
  }

  /** Every request goes to `https://slack.com/api/` followed by the API method's name. */
  lemma UrlOfPost(c: Client, endpoint: string, data: Option<Form>)
    ensures Url(Post(c, endpoint, data)) == "https://slack.com/api/" + endpoint
  {
    assert BASE_URL + "/" == "https://slack.com/api/";
  }

  /** A caller that sends its own fields on top of a payload gets the same as merging first. */
  lemma PayloadMergeAssociative(token: string, d1: Form, d2: Form)
    ensures Payload(token, Some(d1 + d2)) == Payload(token, Some(d1)) + d2
  {
    var lhs := Payload(token, Some(d1 + d2));
    var rhs := Payload(token, Some(d1)) + d2;
    assert lhs.Keys == rhs.Keys;
    forall k | k in lhs
      ensures lhs[k] == rhs[k]
    {
      if k !in d2 && k !in d1 {
        assert k in STEALTH_KEYS;
      }
    }
  }

  /** Sending a complete payload again as the caller's data reproduces it. */
  lemma PayloadIdempotent(token: string, data: Option<Form>)
    ensures Payload(token, Some(Payload(token, data))) == Payload(token, data)
  {
    var p := Payload(token, data);
    var q := Payload(token, Some(p));
    assert q.Keys == p.Keys;
    forall k | k in q
      ensures q[k] == p[k]
    {
    }
  }

  /** Caller data without stealth keys keeps every stealth default, the token included. */
  lemma PayloadKeepsDefaults(token: string, data: Form)
    requires data.Keys !! STEALTH_KEYS
    ensures Payload(token, Some(data)) - data.Keys == StealthFields(token)
  {
    var p := Payload(token, Some(data)) - data.Keys;
    var f := StealthFields(token);
    assert p.Keys == f.Keys;
    forall k | k in p
      ensures p[k] == f[k]
    {
    }
  }

  /** `form` carries every stealth field with its default value, the client's token included. */
  predicate CarriesStealth(form: Form, token: string)
  {
    && STEALTH_KEYS <= form.Keys
    && forall k :: k in STEALTH_KEYS ==> form[k] == StealthFields(token)[k]
  }

  /** Caller data that names no stealth field is sent as given, next to every stealth default. */
  lemma PostDisjoint(c: Client, endpoint: string, data: Form)
    requires data.Keys !! STEALTH_KEYS
    ensures Post(c, endpoint, Some(data)).form.Keys == STEALTH_KEYS + data.Keys
    ensures CarriesStealth(Post(c, endpoint, Some(data)).form, c.token)
    ensures Post(c, endpoint, Some(data)).form["token"] == c.token
    ensures forall k :: k in data ==> Post(c, endpoint, Some(data)).form[k] == data[k]
  {
  }

  /** `channels_list(types, limit)`; `exclude_archived` is always on. */
  function ChannelsList(c: Client, types: string, limit: int): (r: Request)
    ensures r.endpoint == "conversations.list"
    ensures r.form.Keys == STEALTH_KEYS + {"types", "limit", "exclude_archived"}
    ensures CarriesStealth(r.form, c.token) && r.cookies == c.cookies
    ensures r.form["types"] == types && r.form["exclude_archived"] == "true"
    ensures r.form["limit"] == IntToString(limit) && ParseInt(r.form["limit"]) == Some(limit)
  {
    var data := map["types" := types, "limit" := IntToString(limit), "exclude_archived" := "true"];
    assert data.Keys == {"types", "limit", "exclude_archived"};
    PostDisjoint(c, "conversations.list", data);
    ParseIntOfIntToString(limit);
    Post(c, "conversations.list", Some(data))
  }

  /** `conversations_history(channel, limit)`. */
  function ConversationsHistory(c: Client, channel: string, limit: int): (r: Request)
    ensures r.endpoint == "conversations.history"
    ensures r.form.Keys == STEALTH_KEYS + {"channel", "limit"}
    ensures CarriesStealth(r.form, c.token) && r.cookies == c.cookies
    ensures r.form["channel"] == channel
    ensures r.form["limit"] == IntToString(limit) && ParseInt(r.form["limit"]) == Some(limit)
  {
    var data := map["channel" := channel, "limit" := IntToString(limit)];
    assert data.Keys == {"channel", "limit"};
    PostDisjoint(c, "conversations.history", data);
    ParseIntOfIntToString(limit);
    Post(c, "conversations.history", Some(data))
  }

  /** `conversations_replies(channel, thread_ts)`: the thread timestamp is sent as `ts`. */
  function ConversationsReplies(c: Client, channel: string, threadTs: string): (r: Request)
    ensures r.endpoint == "conversations.replies"
    ensures r.form.Keys == STEALTH_KEYS + {"channel", "ts"}
    ensures CarriesStealth(r.form, c.token) && r.cookies == c.cookies
    ensures r.form["channel"] == channel && r.form["ts"] == threadTs
  {
    var data := map["channel" := channel, "ts" := threadTs];
    assert data.Keys == {"channel", "ts"};
    PostDisjoint(c, "conversations.replies", data);
    Post(c, "conversations.replies", Some(data))
  }

  /** `search_messages(query, count, sort)`: newest first, always. */
  function SearchMessages(c: Client, query: string, count: int, sort: string): (r: Request)
    ensures r.endpoint == "search.messages"
    ensures r.form.Keys == STEALTH_KEYS + {"query", "count", "sort", "sort_dir"}
    ensures CarriesStealth(r.form, c.token) && r.cookies == c.cookies
    ensures r.form["query"] == query && r.form["sort"] == sort && r.form["sort_dir"] == "desc"
    ensures r.form["count"] == IntToString(count) && ParseInt(r.form["count"]) == Some(count)
  {
    var data := map["query" := query, "count" := IntToString(count), "sort" := sort, "sort_dir" := "desc"];
    assert data.Keys == {"query", "count", "sort", "sort_dir"};
    PostDisjoint(c, "search.messages", data);
    ParseIntOfIntToString(count);
    Post(c, "search.messages", Some(data))
  }

  /** `post_message(channel, text, thread_ts)`: the data dict gains `thread_ts` only when it is truthy. */
  method PostMessage(c: Client, channel: string, text: string, threadTs: Option<string>) returns (r: Request)
    ensures r.endpoint == "chat.postMessage"
    ensures r.form.Keys == STEALTH_KEYS + {"channel", "text", "unfurl_links", "unfurl_media"}
                           + (if Truthy(threadTs) then {"thread_ts"} else {})
    ensures "thread_ts" in r.form <==> Truthy(threadTs)
    ensures Truthy(threadTs) ==> r.form["thread_ts"] == threadTs.value
    ensures CarriesStealth(r.form, c.token)
    ensures r.form["channel"] == channel && r.form["text"] == text
    ensures r.form["unfurl_links"] == "true" && r.form["unfurl_media"] == "true"
    ensures r.cookies == c.cookies
  {
    var data := map["channel" := channel, "text" := text, "unfurl_links" := "true", "unfurl_media" := "true"];
    if Truthy(threadTs) {
      data := data["thread_ts" := threadTs.value];
    }
    assert data.Keys == {"channel", "text", "unfurl_links", "unfurl_media"}
                        + (if Truthy(threadTs) then {"thread_ts"} else {});
    assert "thread_ts" in data <==> Truthy(threadTs);
    PostDisjoint(c, "chat.postMessage", data);
    r := Post(c, "chat.postMessage", Some(data));
  }

  /** `users_list(limit)`. */
  function UsersList(c: Client, limit: int): (r: Request)
    ensures r.endpoint == "users.list"
    ensures r.form.Keys == STEALTH_KEYS + {"limit"}
    ensures CarriesStealth(r.form, c.token) && r.cookies == c.cookies
    ensures r.form["limit"] == IntToString(limit) && ParseInt(r.form["limit"]) == Some(limit)
  {
    var data := map["limit" := IntToString(limit)];
    assert data.Keys == {"limit"};
    PostDisjoint(c, "users.list", data);
    ParseIntOfIntToString(limit);
    Post(c, "users.list", Some(data))
  }

  /** `auth_test()`: no data, so exactly the stealth fields are sent. */
  function AuthTest(c: Client): (r: Request)
    ensures r.endpoint == "auth.test"
    ensures r.form == StealthFields(c.token) && r.cookies == c.cookies
  {
    Post(c, "auth.test", None)
  }
}
