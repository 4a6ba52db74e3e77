# Slack browser-token client: requests and permalinks

This project models `SlackClient`, the client in `scripts/slack_client.py` that calls
Slack's web API with browser tokens: an `xoxc` token in the form and an `xoxd` cookie.
It covers the parts of the class that compute values:

- the form payload `_post` sends. These are the five "stealth" fields (`token`,
  `_x_reason`, `_x_mode`, `_x_sonic`, `_x_app_name`) merged with the caller's fields,
  and the caller's value wins on a shared key;
- the fields each API method sends (`channels_list`, `conversations_history`,
  `conversations_replies`, `search_messages`, `post_message`, `users_list`,
  `auth_test`), with integers sent as Python's `str(int)`;
- `get_permalink`. It formats the message timestamp by deleting every `.`. It picks
  `messages` or `archives` from the link style. When no workspace name is given, it
  takes the name from the `auth.test` URL or raises `ValueError`. Then it assembles
  `https://{workspace}.slack.com/{path}/{channel}/p{ts}`.

Modules:

- `Wrappers` (`wrappers.dfy`): `Option` for Python's `None`; `Result` for a call that may raise.
- `PyStr` (`pystr.dfy`): the Python string behaviour the client relies on. This covers
  truthiness of an optional string, `str.replace` (left to right, occurrences never
  overlap, including the empty-pattern case) and `str(int)`. It also has three
  functions used to read values back in proofs: `Without`, a reference definition of
  deleting one character; `ParseInt`, which reads decimal text as an integer; and
  `Split`, which cuts a string at a separator.
- `SlackClient` (`slack_client.dfy`): `Client` holds what `__init__` stores. `Request`
  is one POST, given as its API method name, form fields and cookies. `Payload`/`Post`
  model `_post`, and there is one function per API method. `post_message` is a method,
  because the Python code updates its local dict in place.
- `Permalinks` (`permalink.dfy`): `get_permalink`. The `auth.test` reply is an input
  value (`AuthReply`). `ParsePermalink` splits a link at its slashes, so the lemmas can
  show that the link loses none of its pieces.

Inputs that Python gets from the outside world are explicit parameters here: the
`auth.test` reply, the tokens and the user agent.

The export pipeline, the pacing controller and the digest code are not in
`scripts/slack_client.py` and are not part of this model.

## Model

| member | source | states |
|---|---|---|
| `SlackClient.NewClient` | scripts/slack_client.py:17-24 | The token is stored verbatim. The cookies are exactly `{"d": xoxd}`. A truthy user agent is kept; `None` or `""` falls back to the built-in browser string. |
| `SlackClient.StealthFields` | scripts/slack_client.py:34-39 | The default fields are exactly the five stealth keys, and `token` carries the client's token. |
| `SlackClient.PayloadMerge` | scripts/slack_client.py:34-41 | The payload's keys are the stealth keys plus the caller's keys, and nothing else. Every caller key has the caller's value, overriding a default. Every other stealth key keeps its default. |
| `SlackClient.PayloadMergeAssociative` | scripts/slack_client.py:34-41 | Merging caller data `d1 + d2` equals merging `d1` and then laying `d2` on top: later keys win at every stage. |
| `SlackClient.PayloadIdempotent` | scripts/slack_client.py:34-41 | Passing a finished payload back in as caller data reproduces it. |
| `SlackClient.PayloadKeepsDefaults` | scripts/slack_client.py:34-41 | When the caller names no stealth key, removing the caller's keys from the payload leaves exactly the stealth defaults. |
| `SlackClient.PostDisjoint` | scripts/slack_client.py:32-46 | Caller data without stealth keys is sent unchanged, next to all five defaults and the client's own token. |
| `SlackClient.UrlOfPost` | scripts/slack_client.py:43-44 | Every request is posted to `https://slack.com/api/` followed by the API method's name. |
| `SlackClient.ChannelsList` | scripts/slack_client.py:52-59 | Posts to `conversations.list` with exactly the stealth fields plus `types`, `limit`, `exclude_archived`=`true`. `limit` is exactly `str(limit)`, which reads back as the integer given. The client's cookies are sent. |
| `SlackClient.ConversationsHistory` | scripts/slack_client.py:61-66 | Posts to `conversations.history` with exactly the stealth fields plus `channel` and `limit`. `limit` is exactly `str(limit)`, which reads back as the integer given. |
| `SlackClient.ConversationsReplies` | scripts/slack_client.py:68-73 | Posts to `conversations.replies` with exactly the stealth fields plus `channel` and the thread timestamp under `ts`. |
| `SlackClient.SearchMessages` | scripts/slack_client.py:75-82 | Posts to `search.messages` with exactly the stealth fields plus `query`, `count` (exactly `str(count)`, which reads back as the integer), `sort` and `sort_dir`=`desc`. |
| `SlackClient.PostMessage` | scripts/slack_client.py:84-94 | Posts to `chat.postMessage` with `channel`, `text` and `unfurl_links`=`unfurl_media`=`true`. `thread_ts` is present exactly when a truthy `thread_ts` was given, and then it has that value. All stealth defaults are kept. |
| `SlackClient.UsersList` | scripts/slack_client.py:96-98 | Posts to `users.list` with exactly the stealth fields plus `limit`, which is exactly `str(limit)` and reads back as the integer given. |
| `SlackClient.AuthTest` | scripts/slack_client.py:100-102 | Posts to `auth.test` with no data, so the form is exactly the stealth fields. |
| `PyStr.ParseIntOfIntToString` | scripts/slack_client.py:57 | `str(limit)` loses nothing: the decimal text, with its sign, reads back as the same integer. |
| `PyStr.ReplaceAllSkipsPrefix` | scripts/slack_client.py:127 | `str.replace` copies a prefix verbatim when no occurrence of the pattern starts inside it. |
| `PyStr.ReplaceAllAbsent` | scripts/slack_client.py:127 | `str.replace` leaves a string that does not contain the pattern unchanged. |
| `PyStr.ReplaceAllAtFront` | scripts/slack_client.py:127 | `str.replace` replaces an occurrence at the front and resumes scanning just after it. |
| `PyStr.ReplaceCharByNothing` | scripts/slack_client.py:130 | Replacing a one-character pattern by `""` is exactly the reference deletion `Without`. |
| `PyStr.WithoutCounts` | scripts/slack_client.py:130 | Deleting `c` leaves no `c`, keeps every other character with its multiplicity, and shortens the string by the number of `c`s. |
| `Permalinks.FormatTimestampDeletesDots` | scripts/slack_client.py:130 | The formatted timestamp is the message timestamp with every `.` deleted, in order. It has no `.`, and every other character keeps its number of occurrences. |
| `Permalinks.FormatTimestampOfDecimal` | scripts/slack_client.py:130 | A timestamp `seconds.fraction` becomes `seconds` followed by `fraction`. |
| `Permalinks.FormatTimestampExample` | scripts/slack_client.py:111 | `1734567890.123456` becomes `1734567890123456`. |
| `Permalinks.PathSegment` | scripts/slack_client.py:133 | The path is `messages` if and only if the link style is `browser`; for every other style, the default `app` included, it is `archives`. |
| `Permalinks.ExtractWorkspaceInverse` | scripts/slack_client.py:125-127 | Removing `https://` and `.slack.com/` from `https://{w}.slack.com/` gives back `w`, whenever `w` contains neither substring. |
| `Permalinks.ExtractWorkspaceExample` | scripts/slack_client.py:125-127 | `https://80000hours.slack.com/` gives `80000hours`. |
| `Permalinks.ResolveWorkspace` | scripts/slack_client.py:121-127 | A truthy workspace is used verbatim. Otherwise a reply that is not ok gives a `ValueError` carrying the reply's error (`None` when it has none). An ok reply gives the name extracted from its URL, or from `""` when the URL is absent. It fails exactly in the not-ok case. |
| `Permalinks.GetPermalink` | scripts/slack_client.py:104-135 | It fails exactly when no truthy workspace is given and `auth.test` is not ok; then it raises that `ValueError` and returns no link. Otherwise the link is the f-string over the resolved workspace, the chosen path, the channel and the formatted timestamp. |
| `Permalinks.AuthNotConsultedWithWorkspace` | scripts/slack_client.py:121-122 | With a truthy workspace, any two `auth.test` replies give the same link, so no lookup is needed. |
| `Permalinks.AuthFailureRaises` | scripts/slack_client.py:121-124 | With no truthy workspace and a reply that is not ok, the result is the `ValueError` and no link. |
| `Permalinks.WorkspaceFromAuthUrl` | scripts/slack_client.py:121-135 | With no workspace given, an ok reply whose URL is `https://{w}.slack.com/` gives the same link as passing `w` explicitly. |
| `Permalinks.ParsePermalinkUrl` | scripts/slack_client.py:135 | Splitting the assembled link at `/` gives back the workspace, path, channel and formatted timestamp, provided none of them contains a slash. |
| `Permalinks.GetPermalinkParsesBack` | scripts/slack_client.py:104-135 | Every link `get_permalink` returns reads back as the resolved workspace, the path for the link style, the channel and the formatted timestamp. This holds whenever the workspace, channel and timestamp contain no slash. |
| `Permalinks.GetPermalinkExample` | scripts/slack_client.py:110-116 | Channel `C04AFNMCNFP`, timestamp `1734567890.123456`, workspace `80000hours` and the `app` style give the `archives` link with timestamp `1734567890123456`, for any `auth.test` reply. |

## Left out

- The HTTP transport is not modelled: `requests.Session`, its headers, `session.post`
  and `response.json()` (scripts/slack_client.py:25-30, 43-48). The API methods return
  the `Request` they would send, not Slack's answer.
- What Slack returns for any endpoint is not modelled. For `get_permalink`, the
  `auth.test` reply is a parameter.
- `load_config` is not modelled, because it is file and JSON I/O.
- `main` is not modelled, because it is argument parsing, printing and `sys.exit`.
- The order of the form fields is not modelled. Python dicts keep insertion order, so
  the stealth fields are encoded first; `Form` is a `map`, which has no order.
- `AuthReply` models only part of the JSON reply. `ok` is a boolean, and an absent
  `ok` counts as `false`. `url` and `error` are strings or absent. If the reply held a
  `url` that is not a string (for example `null`), Python would raise an
  `AttributeError`; that case is not modelled. A non-string `error` would be printed
  with Python's `str()`; only string errors are modelled.
- Python's default arguments (`types`, `limit` = 200 or 100, `count` = 20, `sort` =
  `timestamp`, `thread_ts` = `None`, `link_style` = `app`, `workspace` = `None`) are
  not modelled as defaults; each Dafny function takes every argument explicitly.
- `PyStr.IntToString` is total. CPython 3.11 and later raise `ValueError` from
  `str(int)` for a number of more than 4300 digits; that limit is not modelled.
- `ParseInt` is not Python's `int()`. It reads only an optional `-` and decimal digits,
  and serves to show that `str(int)` fields can be read back.
