/**
 * The FCP message table of pluginbase's PageBase: replies of the node are filed under the
 * caller's part of their identifier, together with the redirect URI a reply may carry, and
 * taken out by the page that waits for them.
 */
module PageBaseModel {
  import opened Wrappers
  import opened JavaText
  import opened FcpCommandBaseModel

  /** An FCP message from the node: its name, its Identifier field (None when absent) and its other fields. */
  datatype Message = Message(name: string, identifier: Option<string>, fields: map<string, string>)

  function Max(a: int, b: int): int {
    if a >= b then a else b
  }

  /**
   * The caller's part of an identifier split at '_': the second part, then each further part
   * but the last after a '_'. Fewer than two parts make the lookup of the second one throw.
   */
  function SuffixOf(parts: seq<string>): Result<string> {
    if |parts| < 2 then Err(EXCEPTION) else Ok(Join(parts[1..Max(2, |parts| - 1)], "_"))
  }

  /** `getIdentifier` on the text of an identifier. */
  function IdentifierSuffix(identifier: string): Result<string> {
    SuffixOf(Split(identifier, '_'))
  }

  /** An identifier without '_' has a single part: asking for its suffix throws. */
  lemma NoSeparatorFails(identifier: string)
    requires '_' !in identifier
    ensures IdentifierSuffix(identifier).Err?
  {
    assert Split(identifier, '_') == [identifier];
  }

  /**
   * For an identifier made of a page name, a suffix and a stamp, where neither the page name
   * nor the non-empty stamp holds '_', the caller's part is the suffix, whatever '_' it holds.
   */
  lemma SuffixRoundTrip(page: string, suffix: string, stamp: string)
    requires '_' !in page && '_' !in stamp && stamp != ""
    ensures IdentifierSuffix(page + "_" + suffix + "_" + stamp) == Ok(suffix)
  {
    var inner := Fields(suffix, '_');
    JoinFields(suffix, '_');
    var parts := [page] + inner + [stamp];
    assert forall k :: 0 <= k < |parts| ==> '_' !in parts[k];
    assert ([page] + inner)[1..] == inner;
    assert Join([page] + inner, "_") == page + "_" + suffix;
    JoinSnoc([page] + inner, stamp, "_");
    assert Join(parts, "_") == page + "_" + suffix + "_" + stamp;
    SplitJoin(parts, '_');
    assert parts[1..|parts| - 1] == inner;
  }

  /** The identifiers commands are sent with give back the suffix they were built from. */
  lemma RequestIdentifierRoundTrip(page: string, suffix: string, time: int)
    requires '_' !in page
    ensures IdentifierSuffix(RequestIdentifier(page, suffix, time)) == Ok(suffix)
  {
    var stamp := IntToString(time);
    assert '_' !in stamp;
    SuffixRoundTrip(page, suffix, stamp);
  }

  /** `PageBase`: the replies waiting for the page, their redirect URIs, and the last redirect taken. */
  class Page {
    var messages: map<string, Message>
    var redirects: map<string, Option<string>>
    var redirectUri: Option<string>

    constructor ()
      ensures messages == map[] && redirects == map[] && redirectUri == None
    {
      messages := map[];
      redirects := map[];
      redirectUri := None;
    }

    /** `getIdentifier(message)`: the caller's part of the message's identifier; a missing identifier throws. */
    method GetIdentifier(m: Message) returns (r: Result<string>)
      ensures m.identifier.None? ==> r == Err(EXCEPTION)
      ensures m.identifier.Some? ==> r == IdentifierSuffix(m.identifier.value)
    {
      if m.identifier.None? {
        return Err(EXCEPTION);
      }
      var parts := Split(m.identifier.value, '_');
      if |parts| < 2 {
        return Err(EXCEPTION);
      }
      var buf := parts[1];
      var i := 2;
      while i < |parts| - 1
        invariant 2 <= i <= Max(2, |parts| - 1)
        invariant buf == Join(parts[1..i], "_")
      {
        JoinSnoc(parts[1..i], parts[i], "_");
        assert parts[1..i] + [parts[i]] == parts[1..i + 1];
        buf := buf + "_" + parts[i];
        i := i + 1;
      }
      r := Ok(buf);
    }

    /** `addMessage(message)`: the message is filed under its caller's part, replacing any message there. */
    method AddMessage(m: Message) returns (st: Status)
      modifies this`messages
      ensures var id := if m.identifier.None? then Err(EXCEPTION) else IdentifierSuffix(m.identifier.value);
        (id.Err? ==> st == Failed(EXCEPTION) && messages == old(messages)) &&
        (id.Ok? ==> st == Done && messages == old(messages)[id.value := m])
    {
      var id := GetIdentifier(m);
      if id.Err? {
        return Failed(EXCEPTION);
      }
      messages := messages[id.value := m];
      st := Done;
    }

    /** `updateRedirectUri(message)`: the message's RedirectUri (None when absent) is filed under its caller's part. */
    method UpdateRedirectUri(m: Message) returns (st: Status)
      modifies this`redirects
      ensures var id := if m.identifier.None? then Err(EXCEPTION) else IdentifierSuffix(m.identifier.value);
        (id.Err? ==> st == Failed(EXCEPTION) && redirects == old(redirects)) &&
        (id.Ok? ==>
          st == Done &&
          redirects == old(redirects)[id.value := if "RedirectUri" in m.fields then Some(m.fields["RedirectUri"]) else None])
    {
      var id := GetIdentifier(m);
      if id.Err? {
        return Failed(EXCEPTION);
      }
      var uri := if "RedirectUri" in m.fields then Some(m.fields["RedirectUri"]) else None;
      redirects := redirects[id.value := uri];
      st := Done;
    }

    /**
     * `getMessage(id, type)`: a message filed under id with the requested name is taken out with
     * its redirect, which becomes the last redirect taken; otherwise nothing changes and there is
     * no message. A null id throws.
     */
    method GetMessage(id: Option<string>, messageType: string) returns (r: Result<Option<Message>>)
      modifies this`messages, this`redirects, this`redirectUri
      ensures id.None? ==>
          r == Err(EXCEPTION) && messages == old(messages) && redirects == old(redirects) && redirectUri == old(redirectUri)
      ensures id.Some? && (id.value !in old(messages) || old(messages)[id.value].name != messageType) ==>
          r == Ok(None) && messages == old(messages) && redirects == old(redirects) && redirectUri == old(redirectUri)
      ensures id.Some? && id.value in old(messages) && old(messages)[id.value].name == messageType ==>
          r == Ok(Some(old(messages)[id.value])) &&
          messages == old(messages) - {id.value} && redirects == old(redirects) - {id.value} &&
          redirectUri == (if id.value in old(redirects) then old(redirects)[id.value] else None)
    {
      if id.None? {
        return Err(EXCEPTION);
      }
      var message := if id.value in messages then Some(messages[id.value]) else None;
      if message.Some? && message.value.name != messageType {
        message := None;
      }
      if message.Some? {
        messages := messages - {id.value};
        redirectUri := if id.value in redirects then redirects[id.value] else None;
        redirects := redirects - {id.value};
      }
      r := Ok(message);
    }

    /** `getRedirectURI()`: the redirect of the last message taken. */
    function RedirectUri(): Option<string>
      reads this
    {
      redirectUri
    }
  }

  /**
   * A reply filed by `addMessage` and asked for under the suffix its command was sent with,
   * with the reply's own name, is the one found.
   */
  lemma FiledReplyIsFound(messages: map<string, Message>, m: Message, page: string, suffix: string, time: int)
    requires '_' !in page && m.identifier == Some(RequestIdentifier(page, suffix, time))
    ensures var id := IdentifierSuffix(m.identifier.value);
      id == Ok(suffix) && suffix in messages[id.value := m] && messages[id.value := m][suffix] == m
  {
    RequestIdentifierRoundTrip(page, suffix, time);
  }
}
