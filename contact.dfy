/**
 * The contact-form route: it trims the submitted fields, validates the name,
 * the e-mail address and the message, maps the topic to a subject line, and
 * hands one message with HTML-escaped fields to the mail service. The mail
 * service is a parameter: a function from the message sent to its outcome.
 */
module Contact {
  import opened Text
  import opened Js
  import opened Wrappers

  /** `.replace(/c/g, rep)`: every occurrence of the character `c` becomes `rep`. */
  function ReplaceAll(s: string, c: char, rep: string): string {
    if s == [] then []
    else (if s[0] == c then rep else [s[0]]) + ReplaceAll(s[1..], c, rep)
  }

  /**
   * After the replacement `c` is gone unless `rep` brings it back, and every
   * other character not in `rep` is present exactly when it was before.
   */
  lemma {:induction false} ReplaceAllChars(s: string, c: char, rep: string, d: char)
    ensures c !in rep ==> c !in ReplaceAll(s, c, rep)
    ensures d != c && d !in rep ==> (d in ReplaceAll(s, c, rep) <==> d in s)
  {
    if s != [] {
      ReplaceAllChars(s[1..], c, rep, d);
      var head := if s[0] == c then rep else [s[0]];
      assert ReplaceAll(s, c, rep) == head + ReplaceAll(s[1..], c, rep);
      assert s == [s[0]] + s[1..];
    }
  }

  /** `escapeHtml`: four global replacements, `&` first. */
  function EscapeHtml(s: string): string {
    ReplaceAll(ReplaceAll(ReplaceAll(ReplaceAll(s, '&', "&amp;"), '<', "&lt;"), '>', "&gt;"), '"', "&quot;")
  }

  /** The entity each character is written as, escaping one character at a time. */
  function EscapeChar(c: char): string {
    if c == '&' then "&amp;"
    else if c == '<' then "&lt;"
    else if c == '>' then "&gt;"
    else if c == '"' then "&quot;"
    else [c]
  }

  /** The single-pass reference: each character replaced by its entity. */
  function EscapeEach(s: string): string {
    if s == [] then [] else EscapeChar(s[0]) + EscapeEach(s[1..])
  }

  lemma {:induction false} ReplaceAllConcat(a: string, b: string, c: char, rep: string)
    ensures ReplaceAll(a + b, c, rep) == ReplaceAll(a, c, rep) + ReplaceAll(b, c, rep)
  {
    if a == [] {
      assert a + b == b;
    } else {
      assert (a + b)[1..] == a[1..] + b;
      ReplaceAllConcat(a[1..], b, c, rep);
    }
  }

  lemma EscapeHtmlConcat(a: string, b: string)
    ensures EscapeHtml(a + b) == EscapeHtml(a) + EscapeHtml(b)
  {
    var a1, b1 := ReplaceAll(a, '&', "&amp;"), ReplaceAll(b, '&', "&amp;");
    ReplaceAllConcat(a, b, '&', "&amp;");
    var a2, b2 := ReplaceAll(a1, '<', "&lt;"), ReplaceAll(b1, '<', "&lt;");
    ReplaceAllConcat(a1, b1, '<', "&lt;");
    var a3, b3 := ReplaceAll(a2, '>', "&gt;"), ReplaceAll(b2, '>', "&gt;");
    ReplaceAllConcat(a2, b2, '>', "&gt;");
    ReplaceAllConcat(a3, b3, '"', "&quot;");
  }

  lemma {:induction false} ReplaceAllAbsent(s: string, c: char, rep: string)
    requires c !in s
    ensures ReplaceAll(s, c, rep) == s
  {
    if s != [] {
      assert s == [s[0]] + s[1..];
      ReplaceAllAbsent(s[1..], c, rep);
    }
  }

  lemma ReplaceAllOne(c: char, d: char, rep: string)
    ensures ReplaceAll([d], c, rep) == if d == c then rep else [d]
  {
    assert [d][1..] == [];
  }

  /** The last two passes leave alone a string without `>` and `"`. */
  lemma LastTwoPassesKeep(s: string)
    requires '>' !in s && '"' !in s
    ensures ReplaceAll(ReplaceAll(s, '>', "&gt;"), '"', "&quot;") == s
  {
    ReplaceAllAbsent(s, '>', "&gt;");
    ReplaceAllAbsent(s, '"', "&quot;");
  }

  /** The last three passes leave alone a string without `<`, `>` and `"`. */
  lemma LastThreePassesKeep(s: string)
    requires '<' !in s && '>' !in s && '"' !in s
    ensures ReplaceAll(ReplaceAll(ReplaceAll(s, '<', "&lt;"), '>', "&gt;"), '"', "&quot;") == s
  {
    ReplaceAllAbsent(s, '<', "&lt;");
    LastTwoPassesKeep(s);
  }

  /** The last three passes on one character other than `&`. */
  lemma LastThreePassesOne(c: char)
    requires c != '&'
    ensures ReplaceAll(ReplaceAll(ReplaceAll([c], '<', "&lt;"), '>', "&gt;"), '"', "&quot;") == EscapeChar(c)
  {
    ReplaceAllOne('<', c, "&lt;");
    if c == '<' {
      var e := "&lt;";
      assert e[0] == '&' && e[1] == 'l' && e[2] == 't' && e[3] == ';';
      LastTwoPassesKeep(e);
    } else {
      ReplaceAllOne('>', c, "&gt;");
      if c == '>' {
        var e := "&gt;";
        assert e[0] == '&' && e[1] == 'g' && e[2] == 't' && e[3] == ';';
        ReplaceAllAbsent(e, '"', "&quot;");
      } else {
        ReplaceAllOne('"', c, "&quot;");
      }
    }
  }

  lemma EscapeHtmlOne(c: char)
    ensures EscapeHtml([c]) == EscapeChar(c)
  {
    ReplaceAllOne('&', c, "&amp;");
    if c == '&' {
      var e := "&amp;";
      assert e[0] == '&' && e[1] == 'a' && e[2] == 'm' && e[3] == 'p' && e[4] == ';';
      LastThreePassesKeep(e);
    } else {
      LastThreePassesOne(c);
    }
  }

  /**
   * Because `&` is replaced first, the entities the later passes insert are
   * not escaped again: the four passes escape each character exactly once.
   */
  lemma {:induction false} EscapeHtmlIsSinglePass(s: string)
    ensures EscapeHtml(s) == EscapeEach(s)
  {
    if s != [] {
      assert s == [s[0]] + s[1..];
      EscapeHtmlConcat([s[0]], s[1..]);
      EscapeHtmlOne(s[0]);
      EscapeHtmlIsSinglePass(s[1..]);
    }
  }

  /** The entity `e` starts at position `i` of `r`. */
  predicate EntityAt(r: string, i: nat) {
    OccursAt(r, "&amp;", i) || OccursAt(r, "&lt;", i) || OccursAt(r, "&gt;", i) || OccursAt(r, "&quot;", i)
  }

  /** The markup characters an escaped string never holds. */
  predicate NoMarkup(r: string) {
    '<' !in r && '>' !in r && '"' !in r
  }

  lemma OccursShift(a: string, b: string, e: string, j: nat)
    requires OccursAt(b, e, j)
    ensures OccursAt(a + b, e, |a| + j)
  {
    assert (a + b)[|a| + j..|a| + j + |e|] == b[j..j + |e|];
  }

  lemma OccursPrefix(a: string, b: string, e: string)
    requires StartsWith(a, e)
    ensures OccursAt(a + b, e, 0)
  {
    assert (a + b)[..|e|] == a[..|e|];
  }

  /** An entity of `b` is still one after something is put in front. */
  lemma EntityShift(a: string, b: string, j: nat)
    requires EntityAt(b, j)
    ensures EntityAt(a + b, |a| + j)
  {
    if OccursAt(b, "&amp;", j) { OccursShift(a, b, "&amp;", j); }
    else if OccursAt(b, "&lt;", j) { OccursShift(a, b, "&lt;", j); }
    else if OccursAt(b, "&gt;", j) { OccursShift(a, b, "&gt;", j); }
    else { OccursShift(a, b, "&quot;", j); }
  }

  /** An escaped character that starts with `&` is a whole entity. */
  lemma EntityHead(c: char, tail: string)
    requires EscapeChar(c)[0] == '&'
    ensures EntityAt(EscapeChar(c) + tail, 0)
  {
    var head := EscapeChar(c);
    assert StartsWith(head, head);
    if c == '&' { OccursPrefix(head, tail, "&amp;"); }
    else if c == '<' { OccursPrefix(head, tail, "&lt;"); }
    else if c == '>' { OccursPrefix(head, tail, "&gt;"); }
    else { OccursPrefix(head, tail, "&quot;"); }
  }

  /** Every `&` of `r` starts one of the four entities. */
  predicate AmpsAreEntities(r: string) {
    forall i :: 0 <= i < |r| && r[i] == '&' ==> EntityAt(r, i)
  }

  /**
   * The escaped text holds no `<`, `>` or `"`, and every `&` in it starts
   * one of the four entities.
   */
  lemma {:induction false} EscapeHtmlSafe(s: string)
    ensures NoMarkup(EscapeHtml(s)) && AmpsAreEntities(EscapeHtml(s))
  {
    EscapeHtmlIsSinglePass(s);
    EscapeEachNoMarkup(s);
    EscapeEachEntities(s);
  }

  lemma {:induction false} EscapeEachNoMarkup(s: string)
    ensures NoMarkup(EscapeEach(s))
  {
    if s != [] {
      EscapeEachNoMarkup(s[1..]);
      assert EscapeEach(s) == EscapeChar(s[0]) + EscapeEach(s[1..]);
    }
  }

  /** One escaped character in front keeps every `&` the start of an entity. */
  lemma EntitiesPrepend(c: char, tail: string)
    requires AmpsAreEntities(tail)
    ensures AmpsAreEntities(EscapeChar(c) + tail)
  {
    var head := EscapeChar(c);
    var r := head + tail;
    forall i | 0 <= i < |r| && r[i] == '&' ensures EntityAt(r, i) {
      if i < |head| {
        assert i == 0 && head[0] == '&';
        EntityHead(c, tail);
      } else {
        assert tail[i - |head|] == r[i];
        EntityShift(head, tail, i - |head|);
      }
    }
  }

  lemma {:induction false} EscapeEachEntities(s: string)
    ensures AmpsAreEntities(EscapeEach(s))
  {
    if s != [] {
      EscapeEachEntities(s[1..]);
      EntitiesPrepend(s[0], EscapeEach(s[1..]));
      assert EscapeEach(s) == EscapeChar(s[0]) + EscapeEach(s[1..]);
    }
  }

  /** A string with none of `&`, `<`, `>`, `"` is left as it is; in particular `'` is not escaped. */
  lemma {:induction false} EscapeHtmlIdentity(s: string)
    requires '&' !in s && NoMarkup(s)
    ensures EscapeHtml(s) == s
  {
    EscapeHtmlIsSinglePass(s);
    CleanEscapeEach(s);
  }

  lemma {:induction false} CleanEscapeEach(s: string)
    requires '&' !in s && NoMarkup(s)
    ensures EscapeEach(s) == s
  {
    if s != [] {
      forall k | 0 <= k < |s[1..]| ensures s[1..][k] in s {
        assert s[1..][k] == s[k + 1];
      }
      CleanEscapeEach(s[1..]);
    }
  }

  /** The HTML-decoding of the four entities, the inverse of the escaping. */
  function Unescape(r: string): string
    decreases |r|
  {
    if r == [] then []
    else if StartsWith(r, "&amp;") then "&" + Unescape(r[5..])
    else if StartsWith(r, "&lt;") then "<" + Unescape(r[4..])
    else if StartsWith(r, "&gt;") then ">" + Unescape(r[4..])
    else if StartsWith(r, "&quot;") then "\"" + Unescape(r[6..])
    else [r[0]] + Unescape(r[1..])
  }

  /** Escaping loses nothing: decoding the escaped text gives the original back. */
  lemma {:induction false} EscapeHtmlRoundTrip(s: string)
    ensures Unescape(EscapeHtml(s)) == s
  {
    EscapeHtmlIsSinglePass(s);
    UnescapeEscapeEach(s);
  }

  lemma {:induction false} UnescapeEscapeEach(s: string)
    ensures Unescape(EscapeEach(s)) == s
  {
    if s != [] {
      UnescapeHead(s[0], EscapeEach(s[1..]));
      UnescapeEscapeEach(s[1..]);
      assert s == [s[0]] + s[1..];
    }
  }

  /** Decoding reads one escaped character back and continues after it. */
  lemma UnescapeHead(c: char, tail: string)
    ensures Unescape(EscapeChar(c) + tail) == [c] + Unescape(tail)
  {
    if c == '&' { UnescapeEntity("&amp;", 'a', tail); }
    else if c == '<' { UnescapeEntity("&lt;", 'l', tail); }
    else if c == '>' { UnescapeEntity("&gt;", 'g', tail); }
    else if c == '"' { UnescapeEntity("&quot;", 'q', tail); }
    else { UnescapePlain(c, tail); }
  }

  /** An entity, told apart from the others by its second character, decodes to its character. */
  lemma UnescapeEntity(e: string, second: char, tail: string)
    requires e in ["&amp;", "&lt;", "&gt;", "&quot;"] && e[1] == second
    ensures Unescape(e + tail) == (if second == 'a' then "&" else if second == 'l' then "<"
                                   else if second == 'g' then ">" else "\"") + Unescape(tail)
  {
    var r := e + tail;
    assert r[..|e|] == e && r[|e|..] == tail && r[1] == second;
  }

  /** Any other character decodes to itself. */
  lemma UnescapePlain(c: char, tail: string)
    requires c !in "&<>\""
    ensures Unescape([c] + tail) == [c] + Unescape(tail)
  {
    var r := [c] + tail;
    assert r[0] == c && r[1..] == tail;
    assert !StartsWith(r, "&amp;") && !StartsWith(r, "&lt;") && !StartsWith(r, "&gt;") && !StartsWith(r, "&quot;") by {
      if |r| >= 4 { assert r[..4][0] == c; }
      if |r| >= 5 { assert r[..5][0] == c; }
      if |r| >= 6 { assert r[..6][0] == c; }
    }
  }

  /** `/^\S+@\S+\.\S+$/`: no whitespace, an `@` after at least one character, then at least one character, a `.`, and at least one more. */
  predicate EmailOk(email: string) {
    NoSpace(email)
    && exists i, j :: 0 < i && i + 1 < j < |email| - 1 && email[i] == '@' && email[j] == '.'
  }

  /** The three non-empty, whitespace-free runs the pattern matches. */
  lemma EmailParts(email: string) returns (local: string, host: string, tld: string)
    requires EmailOk(email)
    ensures email == local + "@" + host + "." + tld
    ensures local != [] && host != [] && tld != []
    ensures NoSpace(local) && NoSpace(host) && NoSpace(tld)
  {
    var i, j :| 0 < i && i + 1 < j < |email| - 1 && email[i] == '@' && email[j] == '.';
    local, host, tld := email[..i], email[i + 1..j], email[j + 1..];
    assert email == email[..i] + [email[i]] + email[i + 1..j] + [email[j]] + email[j + 1..];
  }

  /** Every string of that shape matches. */
  lemma EmailFromParts(local: string, host: string, tld: string)
    requires local != [] && host != [] && tld != []
    requires NoSpace(local) && NoSpace(host) && NoSpace(tld)
    ensures EmailOk(local + "@" + host + "." + tld)
  {
    var email := local + "@" + host + "." + tld;
    var i, j := |local|, |local| + 1 + |host|;
    assert email[i] == '@' && email[j] == '.';
    forall k | 0 <= k < |email| ensures !IsSpace(email[k]) {
      if k < i { assert email[k] == local[k]; }
      else if i < k < j { assert email[k] == host[k - i - 1]; }
      else if j < k { assert email[k] == tld[k - j - 1]; }
    }
  }

  /** The submitted fields, each `(body?.x ?? default).toString().trim()`. */
  datatype Fields = Fields(name: string, email: string, topic: string, message: string)

  /** The parsed request body: not JSON at all, or a JSON value whose object entries (if it is an object) are read. */
  datatype ContactBody = NotJson(parseError: string) | Json(entries: Option<Entries>)

  function Field(entries: Option<Entries>, key: string, default: string): string {
    var v := if entries.Some? then Get(entries.value, key) else Undefined;
    Trim(if IsNullish(v) then default else ToJsString(v))
  }

  function ReadFields(entries: Option<Entries>): Fields {
    Fields(Field(entries, "name", ""), Field(entries, "email", ""),
           Field(entries, "topic", "feedback"), Field(entries, "message", ""))
  }

  predicate Valid(f: Fields) {
    |f.name| >= 2 && EmailOk(f.email) && |f.message| >= 10
  }

  /** The subject chosen from the topic. */
  function Subject(topic: string): string {
    if topic == "bug" then "Bug Report"
    else if topic == "feature" then "Feature Request"
    else "General Feedback"
  }

  /**
   * The message handed to the mail service: the reply-to address, the
   * subject line, and the four escaped fields the HTML body shows (the fixed
   * markup around them is not modelled).
   */
  datatype Mail = Mail(replyTo: string, subject: string,
                       nameHtml: string, emailHtml: string, topicHtml: string, messageHtml: string)

  function Compose(f: Fields): Mail {
    Mail(f.email, "[MAB Digital Tools] " + Subject(f.topic) + ": " + f.name,
         EscapeHtml(f.name), EscapeHtml(f.email), EscapeHtml(f.topic), EscapeHtml(f.message))
  }

  /** What the mail service did: it threw, it answered with an error, or it accepted the message. */
  datatype SendOutcome = SendThrew(message: string) | SendError(message: string) | Sent(id: Option<string>)

  /** The route's JSON answer: `{ ok: false, error }` with a status, or `{ ok: true, id }`. */
  datatype ContactResponse = Failed(httpStatus: int, error: string) | Accepted(id: Option<string>)

  function OrDefault(s: string, default: string): string {
    if s == "" then default else s
  }

  /** The route: an unreadable body is a 500, a readable one is handled by its trimmed fields. */
  function Post(body: ContactBody, send: Mail -> SendOutcome): ContactResponse {
    match body
    case NotJson(parseError) => Failed(500, OrDefault(parseError, "Unknown error"))
    case Json(entries) => Submit(ReadFields(entries), send)
  }

  /** Validation, then at most one call to the mail service. */
  function Submit(f: Fields, send: Mail -> SendOutcome): ContactResponse {
    if !Valid(f) then Failed(400, "Validation failed")
    else
      match send(Compose(f))
      case SendThrew(m) => Failed(500, OrDefault(m, "Unknown error"))
      case SendError(m) => Failed(500, OrDefault(m, "Email send failed"))
      case Sent(id) => Accepted(id)
  }

  /**
   * A readable body is answered 400 "Validation failed" exactly when the
   * trimmed fields fail validation, and then whatever the mail service would
   * do: nothing is sent.
   */
  lemma ValidationGate(f: Fields, send: Mail -> SendOutcome, other: Mail -> SendOutcome)
    ensures Submit(f, send) == Failed(400, "Validation failed") <==> !Valid(f)
    ensures !Valid(f) ==> Submit(f, send) == Submit(f, other)
  {
  }

  /**
   * A valid submission sends one message replying to the trimmed address,
   * with the subject `[MAB Digital Tools] <subject>: <name>` and escaped
   * fields that carry no markup; the service's outcome decides the answer.
   */
  lemma ValidSubmission(f: Fields, send: Mail -> SendOutcome)
    requires Valid(f)
    ensures var m := Compose(f);
      m.replyTo == f.email
      && m.subject == "[MAB Digital Tools] " + Subject(f.topic) + ": " + f.name
      && Unescape(m.nameHtml) == f.name && Unescape(m.messageHtml) == f.message
      && NoMarkup(m.nameHtml) && NoMarkup(m.emailHtml) && NoMarkup(m.topicHtml) && NoMarkup(m.messageHtml)
      && (send(m).Sent? ==> Submit(f, send) == Accepted(send(m).id))
      && (send(m).SendError? ==> Submit(f, send) == Failed(500, OrDefault(send(m).message, "Email send failed")))
      && (send(m).SendThrew? ==> Submit(f, send) == Failed(500, OrDefault(send(m).message, "Unknown error")))
  {
    EscapeHtmlSafe(f.name);
    EscapeHtmlSafe(f.email);
    EscapeHtmlSafe(f.topic);
    EscapeHtmlSafe(f.message);
    EscapeHtmlRoundTrip(f.name);
    EscapeHtmlRoundTrip(f.message);
  }

  /**
   * The topic decides the subject: `bug` and `feature` have their own, every
   * other topic (a missing one reads as `feedback`) is general feedback.
   */
  lemma SubjectSpec(topic: string)
    ensures Subject(topic) == "Bug Report" <==> topic == "bug"
    ensures Subject(topic) == "Feature Request" <==> topic == "feature"
    ensures Subject(topic) == "General Feedback" <==> topic != "bug" && topic != "feature"
  {
  }

  /** A body without a topic is filed as general feedback. */
  lemma MissingTopic()
    ensures ReadFields(None).topic == "feedback" && Subject(ReadFields(None).topic) == "General Feedback"
  {
    TrimStartOfUnspaced("feedback");
    TrimEndOfUnspaced("feedback");
  }

  /** Trimming leaves no whitespace at either end of any field. */
  lemma FieldsTrimmed(entries: Option<Entries>)
    ensures var f := ReadFields(entries);
      (f.name == [] || (!IsSpace(f.name[0]) && !IsSpace(f.name[|f.name| - 1])))
      && (f.message == [] || (!IsSpace(f.message[0]) && !IsSpace(f.message[|f.message| - 1])))
  {
    var f := ReadFields(entries);
    var v := if entries.Some? then Get(entries.value, "name") else Undefined;
    TrimShape(if IsNullish(v) then "" else ToJsString(v));
    var w := if entries.Some? then Get(entries.value, "message") else Undefined;
    TrimShape(if IsNullish(w) then "" else ToJsString(w));
  }
}
