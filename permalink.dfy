/**
 * `SlackClient.get_permalink` from scripts/slack_client.py: the link to one
 * message, `https://{workspace}.slack.com/{path}/{channel}/p{formatted_ts}`.
 *
 * The only remote call, `auth_test()`, is made when no workspace name is
 * given; its JSON reply is an input here (`AuthReply`), and the lemma
 * `AuthNotConsultedWithWorkspace` states that a given name makes the reply
 * irrelevant.
 */
module Permalinks {
  import opened Wrappers
  import opened PyStr

  /** The parts of an `auth.test` reply that `get_permalink` reads; an absent `ok` is `false`. */
  datatype AuthReply = AuthReply(ok: bool, url: Option<string>, error: Option<string>)

  /** The exception `get_permalink` raises. */
  datatype Error = ValueError(message: string)

  const URL_SCHEME := "https://"
  /** Slack's host name after the workspace; `URL_HOST_SUFFIX` adds the slash that ends the host. */
  const HOST_SUFFIX := ".slack.com"
  const URL_HOST_SUFFIX := HOST_SUFFIX + "/"

  /** `message_ts.replace(".", "")`: `1734567890.123456` becomes `1734567890123456`. */
  function FormatTimestamp(messageTs: string): string
  {
    ReplaceAll(messageTs, ".", "")
  }

  /** The formatted timestamp is the message timestamp with its dots deleted and nothing else changed. */
  lemma FormatTimestampDeletesDots(messageTs: string)
    ensures FormatTimestamp(messageTs) == Without(messageTs, '.')
    ensures '.' !in FormatTimestamp(messageTs)
    ensures forall x :: x in FormatTimestamp(messageTs) <==> x in messageTs && x != '.'
    ensures multiset(FormatTimestamp(messageTs)) == multiset(messageTs)['.' := 0]
  {
    ReplaceCharByNothing(messageTs, '.');
    WithoutCounts(messageTs, '.');
  }

  /** A timestamp of the form `{seconds}.{fraction}` loses exactly its dot. */
  lemma FormatTimestampOfDecimal(seconds: string, fraction: string)
    requires '.' !in seconds && '.' !in fraction
    ensures FormatTimestamp(seconds + "." + fraction) == seconds + fraction
  {
    var ts := seconds + "." + fraction;
    assert Without(seconds + ".", '.') == seconds by {
      WithoutAppend(seconds, ".", '.');
      WithoutAbsent(seconds, '.');
    }
    assert Without(ts, '.') == seconds + fraction by {
      WithoutAppend(seconds + ".", fraction, '.');
      WithoutAbsent(fraction, '.');
    }
    ReplaceCharByNothing(ts, '.');
  }

  lemma FormatTimestampExample(messageTs: string)
    requires messageTs == "1734567890.123456"
    ensures FormatTimestamp(messageTs) == "1734567890123456"
  {
    assert messageTs == "1734567890" + "." + "123456";
    FormatTimestampOfDecimal("1734567890", "123456");
  }

  /** The path segment: `messages` for the browser style, `archives` for any other style. */
  function PathSegment(linkStyle: string): (path: string)
    ensures path == "messages" <==> linkStyle == "browser"
    ensures path != "messages" ==> path == "archives"
  {
    if linkStyle == "browser" then "messages" else "archives"
  }

  /** The workspace name in an `auth.test` URL: both `https://` and `.slack.com/` removed everywhere. */
  function ExtractWorkspace(url: string): string
  {
    ReplaceAll(ReplaceAll(url, URL_SCHEME, ""), URL_HOST_SUFFIX, "")
  }

  /** No copy of `https://` starts inside `w` when `.slack.com/` follows it. */
  lemma NoSchemeBeforeSuffix(w: string)
    requires !Contains(w, URL_SCHEME)
    ensures forall i: nat :: i < |w| ==> !MatchAt(w + URL_HOST_SUFFIX, URL_SCHEME, i)
  {
    var s := w + URL_HOST_SUFFIX;
    forall i: nat | i < |w|
      ensures !MatchAt(s, URL_SCHEME, i)
    {
      assert !MatchAt(w, URL_SCHEME, i);
      if i + 8 <= |w| {
        assert s[i..i + 8] == w[i..i + 8];
      } else if i + 8 <= |s| {
        // the '.' that starts the suffix would have to be a character of `https://`
        assert s[i..i + 8][|w| - i] == '.';
      }
    }
  }

  /** No copy of `.slack.com/` starts inside `w` other than the one appended after it. */
  lemma NoSuffixInside(w: string)
    requires !Contains(w, URL_HOST_SUFFIX)
    ensures forall i: nat :: i < |w| ==> !MatchAt(w + URL_HOST_SUFFIX, URL_HOST_SUFFIX, i)
  {
    var s := w + URL_HOST_SUFFIX;
    forall i: nat | i < |w|
      ensures !MatchAt(s, URL_HOST_SUFFIX, i)
    {
      assert !MatchAt(w, URL_HOST_SUFFIX, i);
      if i + 11 <= |w| {
        assert s[i..i + 11] == w[i..i + 11];
      } else if i + 11 <= |s| {
        // the suffix would overlap itself: its '.' at offset |w| - i and the 's' after it
        var k := |w| - i;
        assert s[i..i + 11][k] == '.';
        if k == 6 {
          assert s[i..i + 11][7] == 's';
        }
      }
    }
  }

  /** `.slack.com/` has no `h`, so no copy of `https://` in it. */
  lemma SchemeNotInSuffix()
    ensures !Contains(URL_HOST_SUFFIX, URL_SCHEME)
  {
    forall i: nat | i <= |URL_HOST_SUFFIX|
      ensures !MatchAt(URL_HOST_SUFFIX, URL_SCHEME, i)
    {
      if i + 8 <= |URL_HOST_SUFFIX| {
        assert URL_HOST_SUFFIX[i..i + 8][0] != 'h';
      }
    }
  }

  /**
   * The workspace name is recovered from its `auth.test` URL whenever it
   * does not itself contain one of the two removed substrings.
   */
  lemma ExtractWorkspaceInverse(w: string)
    requires !Contains(w, URL_SCHEME) && !Contains(w, URL_HOST_SUFFIX)
    ensures ExtractWorkspace(URL_SCHEME + w + URL_HOST_SUFFIX) == w
  {
    var url := URL_SCHEME + w + URL_HOST_SUFFIX;
    assert ReplaceAll(url, URL_SCHEME, "") == w + URL_HOST_SUFFIX by {
      assert url == URL_SCHEME + (w + URL_HOST_SUFFIX);
      ReplaceAllAtFront(URL_SCHEME, w + URL_HOST_SUFFIX, "");
      NoSchemeBeforeSuffix(w);
      ReplaceAllSkipsPrefix(w, URL_HOST_SUFFIX, URL_SCHEME, "");
      SchemeNotInSuffix();
      ReplaceAllAbsent(URL_HOST_SUFFIX, URL_SCHEME, "");
    }
    assert ReplaceAll(w + URL_HOST_SUFFIX, URL_HOST_SUFFIX, "") == w by {
      NoSuffixInside(w);
      ReplaceAllSkipsPrefix(w, URL_HOST_SUFFIX, URL_HOST_SUFFIX, "");
      assert URL_HOST_SUFFIX == URL_HOST_SUFFIX + [];
      ReplaceAllAtFront(URL_HOST_SUFFIX, [], "");
    }
  }

  lemma ExtractWorkspaceExample()
    ensures ExtractWorkspace("https://80000hours.slack.com/") == "80000hours"
  {
    var w := "80000hours";
    assert !Contains(w, URL_SCHEME) by {
      forall i: nat | i <= |w|
        ensures !MatchAt(w, URL_SCHEME, i)
      {
        if i + 8 <= |w| {
          assert w[i..i + 8][0] != 'h';
        }
      }
    }
    assert !Contains(w, URL_HOST_SUFFIX);
    ExtractWorkspaceInverse(w);
    assert URL_SCHEME + w == "https://80000hours";
    assert "https://80000hours" + URL_HOST_SUFFIX == "https://80000hours.slack.com/";
  }

  /** `str(auth.get('error'))` for a string error or a missing one. */
  function ErrorText(error: Option<string>): string
  {
    if error.Some? then error.value else "None"
  }

  /**
   * The workspace name `get_permalink` uses: the given one when it is
   * truthy, otherwise the one taken from the `auth.test` URL (an absent URL
   * reads as `""`), or the `ValueError` raised when `auth.test` is not ok.
   */
  function ResolveWorkspace(workspace: Option<string>, auth: AuthReply): (r: Result<string, Error>)
    ensures r.Failure? <==> !Truthy(workspace) && !auth.ok
    ensures r.Failure? ==> r.error == ValueError("Failed to get workspace: " + ErrorText(auth.error))
    ensures Truthy(workspace) ==> r == Success(workspace.value)
    ensures !Truthy(workspace) && auth.ok ==>
              r == Success(ExtractWorkspace(if auth.url.Some? then auth.url.value else ""))
  {
    if Truthy(workspace) then Success(workspace.value)
    else if !auth.ok then Failure(ValueError("Failed to get workspace: " + ErrorText(auth.error)))
    else Success(ExtractWorkspace(if auth.url.Some? then auth.url.value else ""))
  }

  /** The f-string that assembles the link. */
  function PermalinkUrl(workspace: string, path: string, channel: string, formattedTs: string): string
  {
    URL_SCHEME + workspace + URL_HOST_SUFFIX + path + "/" + channel + "/p" + formattedTs
  }

  /** `get_permalink(channel, message_ts, workspace, link_style)`, with the `auth.test` reply as input. */
  function GetPermalink(channel: string, messageTs: string, workspace: Option<string>, linkStyle: string,
                        auth: AuthReply): (r: Result<string, Error>)
    ensures r.Failure? <==> !Truthy(workspace) && !auth.ok
    ensures r.Failure? ==> r.error == ValueError("Failed to get workspace: " + ErrorText(auth.error))
    ensures r.Success? ==>
              r.value == PermalinkUrl(ResolveWorkspace(workspace, auth).value, PathSegment(linkStyle),
                                      channel, FormatTimestamp(messageTs))
  {
    match ResolveWorkspace(workspace, auth)
    case Failure(e) => Failure(e)
    case Success(name) =>
      Success(PermalinkUrl(name, PathSegment(linkStyle), channel, FormatTimestamp(messageTs)))
  }

  /** With a truthy workspace name the `auth.test` reply makes no difference: it is never looked at. */
  lemma AuthNotConsultedWithWorkspace(channel: string, messageTs: string, workspace: Option<string>,
                                      linkStyle: string, auth1: AuthReply, auth2: AuthReply)
    requires Truthy(workspace)
    ensures GetPermalink(channel, messageTs, workspace, linkStyle, auth1)
         == GetPermalink(channel, messageTs, workspace, linkStyle, auth2)
         == Success(PermalinkUrl(workspace.value, PathSegment(linkStyle), channel, FormatTimestamp(messageTs)))
  {
  }

  /** A failed `auth.test` with no workspace given raises and yields no link. */
  lemma AuthFailureRaises(channel: string, messageTs: string, workspace: Option<string>,
                          linkStyle: string, auth: AuthReply)
    requires !Truthy(workspace) && !auth.ok
    ensures GetPermalink(channel, messageTs, workspace, linkStyle, auth)
         == Failure(ValueError("Failed to get workspace: " + ErrorText(auth.error)))
  {
  }

  /**
   * Without a workspace name, a link built from a successful `auth.test`
   * reply for `https://{w}.slack.com/` is the same link as one built with
   * `w` given explicitly.
   */
  lemma WorkspaceFromAuthUrl(channel: string, messageTs: string, workspace: Option<string>,
                             linkStyle: string, w: string, error: Option<string>)
    requires !Truthy(workspace)
    requires !Contains(w, URL_SCHEME) && !Contains(w, URL_HOST_SUFFIX)
    ensures GetPermalink(channel, messageTs, workspace, linkStyle,
                         AuthReply(true, Some(URL_SCHEME + w + URL_HOST_SUFFIX), error))
         == Success(PermalinkUrl(w, PathSegment(linkStyle), channel, FormatTimestamp(messageTs)))
  {
    ExtractWorkspaceInverse(w);
  }

  // ---------------------------------------------------------------------
  // Reading a link back
  // ---------------------------------------------------------------------

  /** The four pieces a permalink is made of. */
  datatype PermalinkParts = PermalinkParts(workspace: string, path: string, channel: string, formattedTs: string)

  /** Splits a link of the permalink shape at its slashes; `None` for any other string. */
  function ParsePermalink(url: string): Option<PermalinkParts>
  {
    var parts := Split(url, '/');
    if |parts| == 6 && parts[0] == "https:" && parts[1] == ""
       && |parts[2]| >= |HOST_SUFFIX| && parts[2][|parts[2]| - |HOST_SUFFIX|..] == HOST_SUFFIX
       && |parts[5]| >= 1 && parts[5][0] == 'p'
    then Some(PermalinkParts(parts[2][..|parts[2]| - |HOST_SUFFIX|], parts[3], parts[4], parts[5][1..]))
    else None
  }

  /** The link written as its six slash-separated parts. */
  lemma PermalinkUrlSlashes(workspace: string, path: string, channel: string, formattedTs: string)
    ensures PermalinkUrl(workspace, path, channel, formattedTs)
         == "https:" + "/" + ("" + "/" + ((workspace + HOST_SUFFIX) + "/" + (path + "/" + (channel + "/" + ("p" + formattedTs)))))
  {
  }

  /** The link loses nothing: each piece is read back when none of them contains a slash. */
  lemma ParsePermalinkUrl(workspace: string, path: string, channel: string, formattedTs: string)
    requires '/' !in workspace && '/' !in path && '/' !in channel && '/' !in formattedTs
    ensures ParsePermalink(PermalinkUrl(workspace, path, channel, formattedTs))
         == Some(PermalinkParts(workspace, path, channel, formattedTs))
  {
    var host := workspace + HOST_SUFFIX;
    var t5 := "p" + formattedTs;
    var t4 := channel + "/" + t5;
    var t3 := path + "/" + t4;
    var t2 := host + "/" + t3;
    var t1 := "" + "/" + t2;
    var url := PermalinkUrl(workspace, path, channel, formattedTs);
    assert Split(url, '/') == ["https:", "", host, path, channel, t5] by {
      PermalinkUrlSlashes(workspace, path, channel, formattedTs);
      assert '/' !in host;
      assert '/' !in t5;
      SplitAbsent(t5, '/');
      SplitAtFirst(channel, t5, '/');
      SplitAtFirst(path, t4, '/');
      SplitAtFirst(host, t3, '/');
      SplitAtFirst("", t2, '/');
      SplitAtFirst("https:", t1, '/');
    }
    assert host[|host| - |HOST_SUFFIX|..] == HOST_SUFFIX;
    assert host[..|host| - |HOST_SUFFIX|] == workspace;
    assert t5[1..] == formattedTs;
  }

  /**
   * Every link `get_permalink` returns reads back as the workspace it
   * resolved, the path for the link style, the channel and the message
   * timestamp without its dots.
   */
  lemma GetPermalinkParsesBack(channel: string, messageTs: string, workspace: Option<string>,
                               linkStyle: string, auth: AuthReply)
    requires ResolveWorkspace(workspace, auth).Success?
    requires '/' !in ResolveWorkspace(workspace, auth).value && '/' !in channel && '/' !in messageTs
    ensures GetPermalink(channel, messageTs, workspace, linkStyle, auth).Success?
    ensures ParsePermalink(GetPermalink(channel, messageTs, workspace, linkStyle, auth).value)
         == Some(PermalinkParts(ResolveWorkspace(workspace, auth).value, PathSegment(linkStyle), channel,
                                FormatTimestamp(messageTs)))
  {
    var name := ResolveWorkspace(workspace, auth).value;
    var path := PathSegment(linkStyle);
    var formatted := FormatTimestamp(messageTs);
    assert '/' !in formatted by {
      FormatTimestampDeletesDots(messageTs);
    }
    assert '/' !in path;
    ParsePermalinkUrl(name, path, channel, formatted);
    var u := GetPermalink(channel, messageTs, workspace, linkStyle, auth).value;
    assert u == PermalinkUrl(name, path, channel, formatted);
  }

  /** The example of the docstring, with the app link style that is the default. */
  lemma GetPermalinkExample(channel: string, messageTs: string, auth: AuthReply)
    requires channel == "C04AFNMCNFP" && messageTs == "1734567890.123456"
    ensures GetPermalink(channel, messageTs, Some("80000hours"), "app", auth)
         == Success(PermalinkUrl("80000hours", "archives", "C04AFNMCNFP", "1734567890123456"))
  {
    FormatTimestampExample(messageTs);
    assert PathSegment("app") == "archives";
  }
}
