/**
 The buffering response writer behind the ETag middleware, against a handler that writes to the
 client directly. The client side is the HTTP server's writer: the first final status wins, a
 write or flush without one sends 200, and some statuses carry no body.
 */
module EtagWriter {
  import opened Common
  import opened SeedLabels

  newtype byte = b: int | 0 <= b < 256

  type Bytes = seq<byte>

  datatype Client = Client(status: Option<int>, body: Bytes)

  datatype Call =
    | SetContentType(contentType: string)
    | WriteHeader(code: int)
    | Write(data: Bytes)
    | Flush

  datatype Writer = Writer(
    contentType: string, buf: Bytes, status: int, streaming: bool, wroteHdr: bool, client: Client)

  // ---- the client side ----

  predicate Informational(code: int) {
    100 <= code <= 199 && code != 101
  }

  predicate BodyAllowed(code: int) {
    !(100 <= code <= 199) && code != 204 && code != 304
  }

  function SendHeader(c: Client, code: int): Client {
    if c.status.Some? || Informational(code) then c else c.(status := Some(code))
  }

  function SendBody(c: Client, data: Bytes): Client {
    var sent := SendHeader(c, 200);
    if BodyAllowed(sent.status.value) then sent.(body := sent.body + data) else sent
  }

  const NoResponse := Client(None, [])

  /** A handler that writes to the client itself. */
  function Direct(calls: seq<Call>): Client {
    if calls == [] then NoResponse
    else
      var c := Direct(calls[..|calls| - 1]);
      match calls[|calls| - 1]
      case SetContentType(_) => c
      case WriteHeader(code) => SendHeader(c, code)
      case Write(data) => SendBody(c, data)
      case Flush => SendHeader(c, 200)
  }

  /** What the server sends once the handler has returned. */
  function Finished(c: Client): Client {
    SendHeader(c, 200)
  }

  // ---- the buffering writer ----

  function Lower(c: char): char {
    if 'A' <= c <= 'Z' then c - 'A' + 'a' else c
  }

  function ToLower(s: string): string {
    seq(|s|, i requires 0 <= i < |s| => Lower(s[i]))
  }

  predicate HasPrefix(s: string, prefix: string) {
    |prefix| <= |s| && s[..|prefix|] == prefix
  }

  predicate IsStreamingContentType(contentType: string) {
    var ct := ToLower(contentType);
    HasPrefix(ct, "text/event-stream") || HasPrefix(ct, "application/grpc") || HasPrefix(ct, "multipart/")
  }

  /** The text starts with the prefix, in capitals or not. */
  ghost predicate StartsInAnyCase(s: string, lower: string, upper: string) {
    && |lower| == |upper| <= |s|
    && forall i :: 0 <= i < |lower| ==> s[i] == lower[i] || s[i] == upper[i]
  }

  lemma PrefixInAnyCase(s: string, lower: string, upper: string)
    requires |lower| == |upper|
    requires forall i, c :: 0 <= i < |lower| ==> (Lower(c) == lower[i] <==> c == lower[i] || c == upper[i])
    ensures HasPrefix(ToLower(s), lower) <==> StartsInAnyCase(s, lower, upper)
  {
    if HasPrefix(ToLower(s), lower) {
      forall i | 0 <= i < |lower|
        ensures Lower(s[i]) == lower[i]
      {
        assert ToLower(s)[..|lower|][i] == ToLower(s)[i];
      }
    }
  }

  /** Event streams, gRPC and multipart are streamed, in any case and with any parameters; nothing else is. */
  lemma StreamingTypes(contentType: string)
    ensures IsStreamingContentType(contentType) <==>
            || StartsInAnyCase(contentType, "text/event-stream", "TEXT/EVENT-STREAM")
            || StartsInAnyCase(contentType, "application/grpc", "APPLICATION/GRPC")
            || StartsInAnyCase(contentType, "multipart/", "MULTIPART/")
  {
    PrefixInAnyCase(contentType, "text/event-stream", "TEXT/EVENT-STREAM");
    PrefixInAnyCase(contentType, "application/grpc", "APPLICATION/GRPC");
    PrefixInAnyCase(contentType, "multipart/", "MULTIPART/");
  }

  const FreshWriter := Writer("", [], 200, false, false, NoResponse)

  function OnWriteHeader(w: Writer, code: int): Writer {
    if w.wroteHdr then w
    else
      var marked := w.(wroteHdr := true, status := code);
      if IsStreamingContentType(w.contentType)
      then marked.(streaming := true, client := SendHeader(w.client, code)) else marked
  }

  function OnWrite(w: Writer, data: Bytes): Writer {
    var ready := OnWriteHeader(w, 200);
    if ready.streaming then ready.(client := SendBody(ready.client, data)) else ready.(buf := ready.buf + data)
  }

  /** Flushing an unstreamed response sends what is buffered, under the default status. */
  function OnFlush(w: Writer): Writer {
    var ready := OnWriteHeader(w, 200);
    if ready.streaming then ready.(client := SendHeader(ready.client, 200))
    else
      var drained := if ready.buf != [] then SendBody(ready.client, ready.buf) else ready.client;
      ready.(streaming := true, buf := [], client := SendHeader(drained, 200))
  }

  function OnCall(w: Writer, call: Call): Writer {
    match call
    case SetContentType(contentType) => w.(contentType := contentType)
    case WriteHeader(code) => OnWriteHeader(w, code)
    case Write(data) => OnWrite(w, data)
    case Flush => OnFlush(w)
  }

  function Buffered(calls: seq<Call>): Writer {
    if calls == [] then FreshWriter else OnCall(Buffered(calls[..|calls| - 1]), calls[|calls| - 1])
  }

  /** Sends the buffered response. */
  function Emptied(w: Writer): Client {
    var headed := if w.status != 0 && w.status != 200 then SendHeader(w.client, w.status) else w.client;
    SendBody(headed, w.buf)
  }

  /** The handler's own tag, or the hash of the body. */
  function TagOf(w: Writer, explicit: string, hash: Bytes -> string): string {
    if explicit != "" then explicit else hash(w.buf)
  }

  /** The response that the middleware leaves for a GET or HEAD request. */
  function Response(calls: seq<Call>, explicit: string, ifNoneMatch: string, hash: Bytes -> string): Client {
    var w := Buffered(calls);
    if w.streaming then Finished(w.client)
    else if MatchesIfNoneMatch(ifNoneMatch, TagOf(w, explicit, hash)) then SendHeader(w.client, 304)
    else Emptied(w)
  }

  // ---- If-None-Match ----

  function Split(s: string): (parts: seq<string>)
    ensures parts != []
  {
    SplitFrom(s, 0, 0)
  }

  function SplitFrom(s: string, start: nat, i: nat): (parts: seq<string>)
    requires start <= i <= |s|
    ensures parts != []
    decreases |s| - i
  {
    if i == |s| then [s[start..]]
    else if s[i] == ',' then [s[start..i]] + SplitFrom(s, i + 1, i + 1)
    else SplitFrom(s, start, i + 1)
  }

  function TrimWeak(s: string): string {
    if HasPrefix(s, "W/") then s[2..] else s
  }

  function Candidate(part: string): string {
    TrimWeak(TrimSpace(part))
  }

  /** The tags that the parts of the header name. */
  function Candidates(parts: seq<string>): seq<string> {
    seq(|parts|, i requires 0 <= i < |parts| => Candidate(parts[i]))
  }

  predicate MatchesIfNoneMatch(ifNoneMatch: string, etag: string) {
    ifNoneMatch != "" && (TrimSpace(ifNoneMatch) == "*" || etag in Candidates(Split(ifNoneMatch)))
  }

  method MatchIfNoneMatch(ifNoneMatch: string, etag: string) returns (matched: bool)
    ensures matched == MatchesIfNoneMatch(ifNoneMatch, etag)
  {
    if ifNoneMatch == "" {
      return false;
    }
    if TrimSpace(ifNoneMatch) == "*" {
      return true;
    }
    var parts := Split(ifNoneMatch);
    for i := 0 to |parts|
      invariant forall j :: 0 <= j < i ==> Candidates(parts)[j] != etag
    {
      assert Candidates(parts)[i] == Candidate(parts[i]);
      var candidate := TrimSpace(parts[i]);
      candidate := TrimWeak(candidate);
      if candidate == etag {
        return true;
      }
    }
    return false;
  }

  /** The wildcard matches every tag, with white space around it or not, and no header matches none. */
  lemma StarMatches(before: string, after: string, etag: string)
    requires OptionalSpace(before) && OptionalSpace(after)
    ensures MatchesIfNoneMatch(before + "*" + after, etag) && !MatchesIfNoneMatch("", etag)
  {
    TrimPadding(before, "*", after);
  }

  /** A quoted tag: no quotation mark between the two at its ends. A comma is allowed. */
  predicate QuotedTag(tag: string) {
    |tag| >= 2 && tag[0] == '"' && tag[|tag| - 1] == '"' && forall i :: 1 <= i < |tag| - 1 ==> tag[i] != '"'
  }

  predicate NoComma(s: string) {
    forall i :: 0 <= i < |s| ==> s[i] != ','
  }

  /** One member of a header list: a tag, strong or weak, with optional white space around it, or none. */
  datatype Member = Member(tag: string, weak: bool, before: string, after: string) | Empty(space: string)

  predicate OptionalSpace(s: string) {
    forall i :: 0 <= i < |s| ==> s[i] == ' ' || s[i] == '\t'
  }

  predicate WellFormed(m: Member) {
    match m
    case Member(tag, _, before, after) => QuotedTag(tag) && OptionalSpace(before) && OptionalSpace(after)
    case Empty(space) => OptionalSpace(space)
  }

  function Tagged(tag: string, weak: bool): string {
    if weak then "W/" + tag else tag
  }

  function Printed(m: Member): string {
    match m
    case Member(tag, weak, before, after) => before + Tagged(tag, weak) + after
    case Empty(space) => space
  }

  /** The header value: the members, separated by commas. */
  function Listed(members: seq<Member>): string
    requires members != []
  {
    if |members| == 1 then Printed(members[0]) else Printed(members[0]) + "," + Listed(members[1..])
  }

  /** The tags of the members; an empty member stands for none. */
  function TagsOf(members: seq<Member>): (tags: seq<string>) {
    if members == [] then []
    else (match members[0] case Member(tag, _, _, _) => [tag] case Empty(_) => []) + TagsOf(members[1..])
  }

  lemma {:induction false} SplitSkips(s: string, start: nat, i: nat, j: nat)
    requires start <= i <= j <= |s| && forall x :: i <= x < j ==> s[x] != ','
    ensures SplitFrom(s, start, i) == SplitFrom(s, start, j)
    decreases j - i
  {
    if i < j {
      SplitSkips(s, start, i + 1, j);
    }
  }

  lemma {:induction false} SplitShifts(prefix: string, s: string, start: nat, i: nat)
    requires start <= i <= |s|
    ensures SplitFrom(prefix + s, |prefix| + start, |prefix| + i) == SplitFrom(s, start, i)
    decreases |s| - i
  {
    var all := prefix + s;
    assert all[|prefix| + start..] == s[start..];
    if i < |s| {
      assert all[|prefix| + i] == s[i];
      assert all[|prefix| + start..|prefix| + i] == s[start..i];
      if s[i] == ',' {
        SplitShifts(prefix, s, i + 1, i + 1);
      } else {
        SplitShifts(prefix, s, start, i + 1);
      }
    }
  }

  // ---- white space around a member ----

  lemma {:induction false} TrimLeftPadding(pad: string, s: string)
    requires OptionalSpace(pad)
    ensures TrimLeft(pad + s) == TrimLeft(s)
  {
    if pad == "" {
      assert pad + s == s;
    } else {
      assert IsSpace(pad[0]);
      assert (pad + s)[1..] == pad[1..] + s;
      TrimLeftPadding(pad[1..], s);
    }
  }

  lemma {:induction false} TrimRightPadding(s: string, pad: string)
    requires OptionalSpace(pad)
    ensures TrimRight(s + pad) == TrimRight(s)
  {
    if pad == "" {
      assert s + pad == s;
    } else {
      assert IsSpace(pad[|pad| - 1]);
      assert (s + pad)[..|s + pad| - 1] == s + pad[..|pad| - 1];
      TrimRightPadding(s, pad[..|pad| - 1]);
    }
  }

  lemma TrimPadding(before: string, bare: string, after: string)
    requires OptionalSpace(before) && OptionalSpace(after) && Trimmed(bare) && bare != ""
    ensures TrimSpace(before + bare + after) == bare
  {
    assert before + bare + after == before + (bare + after);
    TrimLeftPadding(before, bare + after);
    assert TrimLeft(bare + after) == bare + after;
    TrimRightPadding(bare, after);
  }

  /** Trimming drops white space only. */
  lemma {:induction false} TrimLeftKeeps(s: string, c: char)
    requires c in s && !IsSpace(c)
    ensures c in TrimLeft(s)
  {
    if IsSpace(s[0]) {
      assert s == [s[0]] + s[1..];
      TrimLeftKeeps(s[1..], c);
    }
  }

  lemma {:induction false} TrimRightKeeps(s: string, c: char)
    requires c in s && !IsSpace(c)
    ensures c in TrimRight(s)
  {
    if IsSpace(s[|s| - 1]) {
      assert s == s[..|s| - 1] + [s[|s| - 1]];
      TrimRightKeeps(s[..|s| - 1], c);
    }
  }

  // ---- quotation marks ----

  ghost function Quotes(s: string): nat {
    multiset(s)['"']
  }

  lemma NoQuotes(s: string)
    requires forall i :: 0 <= i < |s| ==> s[i] != '"'
    ensures Quotes(s) == 0
  {
    assert '"' !in s;
  }

  lemma QuotesOfConcat(a: string, b: string)
    ensures Quotes(a + b) == Quotes(a) + Quotes(b)
  {
  }

  lemma {:induction false} TrimLeftQuotes(s: string)
    ensures Quotes(TrimLeft(s)) <= Quotes(s)
  {
    if s != "" && IsSpace(s[0]) {
      TrimLeftQuotes(s[1..]);
      assert s == [s[0]] + s[1..];
    }
  }

  lemma TrimRightQuotes(s: string)
    ensures Quotes(TrimRight(s)) <= Quotes(s)
  {
    var t := TrimRight(s);
    assert s == t + s[|t|..];
  }

  /** A candidate has no more quotation marks than its part of the header. */
  lemma CandidateQuotes(part: string)
    ensures Quotes(Candidate(part)) <= Quotes(part)
  {
    TrimLeftQuotes(part);
    TrimRightQuotes(TrimLeft(part));
    var trimmed := TrimSpace(part);
    if HasPrefix(trimmed, "W/") {
      assert trimmed == trimmed[..2] + trimmed[2..];
    }
  }

  lemma {:induction false} PartQuotes(s: string, start: nat, i: nat, k: nat)
    requires start <= i <= |s| && k < |SplitFrom(s, start, i)|
    ensures Quotes(SplitFrom(s, start, i)[k]) <= Quotes(s[start..])
    decreases |s| - i
  {
    if i < |s| {
      if s[i] == ',' {
        assert s[start..] == s[start..i] + s[i..i + 1] + s[i + 1..];
        if k > 0 {
          PartQuotes(s, i + 1, i + 1, k - 1);
        }
      } else {
        PartQuotes(s, start, i + 1, k);
      }
    }
  }

  /** What has two quotation marks is no candidate of a text with fewer. */
  lemma TooFewQuotes(s: string, etag: string)
    requires Quotes(etag) >= 2 && Quotes(s) <= 1
    ensures etag !in Candidates(Split(s))
  {
    assert s[0..] == s;
    forall k | 0 <= k < |Split(s)|
      ensures Candidates(Split(s))[k] != etag
    {
      PartQuotes(s, 0, 0, k);
      CandidateQuotes(Split(s)[k]);
    }
  }

  lemma QuotedHasTwo(tag: string, prefix: string)
    requires QuotedTag(tag)
    ensures Quotes(prefix + tag) >= 2
  {
    var inner := tag[1..|tag| - 1];
    assert prefix + tag == prefix + ['"'] + inner + ['"'];
  }

  // ---- splitting a list ----

  lemma {:induction false} SplitFromConcat(a: string, b: string, start: nat, i: nat)
    requires start <= i <= |a|
    ensures SplitFrom(a + "," + b, start, i) == SplitFrom(a, start, i) + Split(b)
    decreases |a| - i
  {
    var all := a + "," + b;
    if i == |a| {
      assert all[start..i] == a[start..] && all[i] == ',';
      SplitShifts(a + ",", b, 0, 0);
    } else {
      assert all[i] == a[i] && all[start..i] == a[start..i];
      if a[i] == ',' {
        SplitFromConcat(a, b, i + 1, i + 1);
        assert SplitFrom(all, start, i) == [a[start..i]] + (SplitFrom(a, i + 1, i + 1) + Split(b));
      } else {
        SplitFromConcat(a, b, start, i + 1);
      }
    }
  }

  lemma CandidatesOfConcat(a: string, b: string)
    ensures Candidates(Split(a + "," + b)) == Candidates(Split(a)) + Candidates(Split(b))
  {
    SplitFromConcat(a, b, 0, 0);
  }

  lemma SplitWhole(s: string)
    requires NoComma(s)
    ensures Split(s) == [s]
  {
    SplitSkips(s, 0, 0, |s|);
    assert s[0..] == s;
  }

  // ---- reading a list back ----

  /** A member whose tag has no comma is one part, and reads back as its tag. */
  lemma WholeMember(m: Member)
    requires WellFormed(m) && m.Member? && NoComma(m.tag)
    ensures Candidates(Split(Printed(m))) == [m.tag]
  {
    var bare := Tagged(m.tag, m.weak);
    assert bare[|bare| - 1] == '"';
    TrimPadding(m.before, bare, m.after);
    SplitWhole(Printed(m));
  }

  /** A tag with a comma is cut in two, with one quotation mark in each half. */
  lemma CutTag(tag: string, c: nat)
    requires QuotedTag(tag) && c < |tag| && tag[c] == ','
    ensures tag == tag[..c] + "," + tag[c + 1..]
    ensures Quotes(tag[..c]) <= 1 && Quotes(tag[c + 1..]) <= 1
  {
    var head, tail := tag[1..c], tag[c + 1..|tag| - 1];
    NoQuotes(head);
    NoQuotes(tail);
    assert tag[..c] == ['"'] + head && tag[c + 1..] == tail + ['"'];
  }

  /** A printed tag with what precedes it, which has no quotation mark. */
  lemma PrintedParts(m: Member) returns (lead: string)
    requires WellFormed(m) && m.Member?
    ensures Printed(m) == lead + m.tag + m.after && Quotes(lead) == 0
  {
    lead := if m.weak then m.before + "W/" else m.before;
    NoQuotes(lead);
    assert m.before + ("W/" + m.tag) == m.before + "W/" + m.tag;
  }

  lemma CutText(lead: string, first: string, second: string, after: string)
    ensures lead + (first + "," + second) + after == (lead + first) + "," + (second + after)
  {
  }

  /** The two halves as they stand in the header. */
  lemma CutLayout(m: Member, c: nat) returns (left: string, right: string)
    requires WellFormed(m) && m.Member? && c < |m.tag| && m.tag[c] == ','
    ensures Printed(m) == left + "," + right && Quotes(left) <= 1 && Quotes(right) <= 1
  {
    var first, second := m.tag[..c], m.tag[c + 1..];
    var lead := PrintedParts(m);
    CutTag(m.tag, c);
    NoQuotes(m.after);
    left, right := lead + first, second + m.after;
    CutText(lead, first, second, m.after);
    QuotesOfConcat(lead, first);
    QuotesOfConcat(second, m.after);
  }

  lemma CutMember(m: Member, etag: string)
    requires WellFormed(m) && m.Member? && !NoComma(m.tag) && Quotes(etag) >= 2
    ensures etag !in Candidates(Split(Printed(m)))
  {
    var c :| 0 <= c < |m.tag| && m.tag[c] == ',';
    var left, right := CutLayout(m, c);
    CandidatesOfConcat(left, right);
    TooFewQuotes(left, etag);
    TooFewQuotes(right, etag);
  }

  lemma MemberMatches(m: Member, etag: string)
    requires WellFormed(m) && Quotes(etag) >= 2
    ensures etag in Candidates(Split(Printed(m))) <==> m.Member? && NoComma(etag) && etag == m.tag
  {
    if m.Empty? {
      NoQuotes(m.space);
      TooFewQuotes(m.space, etag);
    } else if NoComma(m.tag) {
      WholeMember(m);
    } else {
      CutMember(m, etag);
    }
  }

  lemma {:induction false} ListMatches(members: seq<Member>, etag: string)
    requires members != [] && (forall i :: 0 <= i < |members| ==> WellFormed(members[i])) && Quotes(etag) >= 2
    ensures etag in Candidates(Split(Listed(members))) <==> NoComma(etag) && etag in TagsOf(members)
  {
    MemberMatches(members[0], etag);
    if |members| > 1 {
      ListMatches(members[1..], etag);
      CandidatesOfConcat(Printed(members[0]), Listed(members[1..]));
    }
  }

  /** Reading back a list of tags without commas gives the tags in order. */
  lemma {:induction false} ListedReadsBack(members: seq<Member>)
    requires members != []
    requires forall i :: 0 <= i < |members| ==> WellFormed(members[i]) && members[i].Member? && NoComma(members[i].tag)
    ensures Candidates(Split(Listed(members))) == TagsOf(members)
  {
    WholeMember(members[0]);
    if |members| > 1 {
      ListedReadsBack(members[1..]);
      CandidatesOfConcat(Printed(members[0]), Listed(members[1..]));
    }
  }

  /** A list is never read as the wildcard. */
  lemma ListIsNoWildcard(members: seq<Member>)
    requires members != [] && forall i :: 0 <= i < |members| ==> WellFormed(members[i])
    ensures TrimSpace(Listed(members)) != "*"
  {
    if |members| > 1 {
      JoinedIsNoWildcard(Printed(members[0]), Listed(members[1..]));
    } else {
      MemberIsNoWildcard(members[0]);
    }
  }

  lemma JoinedIsNoWildcard(a: string, b: string)
    ensures TrimSpace(a + "," + b) != "*"
  {
    assert (a + "," + b)[|a|] == ',';
    StaysInTrimmed(a + "," + b, |a|);
  }

  lemma MemberIsNoWildcard(m: Member)
    requires WellFormed(m)
    ensures TrimSpace(Printed(m)) != "*"
  {
    match m
    case Member(tag, weak, before, after) =>
      assert Tagged(tag, weak)[|Tagged(tag, weak)| - 1] == '"';
      TrimPadding(before, Tagged(tag, weak), after);
    case Empty(space) =>
      assert space == space + "";
      TrimLeftPadding(space, "");
  }

  lemma StaysInTrimmed(s: string, i: nat)
    requires i < |s| && !IsSpace(s[i])
    ensures s[i] in TrimSpace(s)
  {
    TrimLeftKeeps(s, s[i]);
    TrimRightKeeps(TrimLeft(s), s[i]);
  }

  /**
   A header that lists quoted tags, strong or weak, matches exactly the listed tags without a
   comma: the split at commas cuts any other tag apart.
   */
  lemma MatchesExactlyListed(members: seq<Member>, etag: string)
    requires members != [] && (forall i :: 0 <= i < |members| ==> WellFormed(members[i])) && QuotedTag(etag)
    ensures MatchesIfNoneMatch(Listed(members), etag) <==> etag in TagsOf(members) && NoComma(etag)
  {
    assert "" + etag == etag;
    QuotedHasTwo(etag, "");
    ListIsNoWildcard(members);
    ListMatches(members, etag);
    NeverListsEmpty(members, etag);
  }

  /** When no listed tag has a comma, that holds for any tag a handler may set. */
  lemma MatchesWholeTags(members: seq<Member>, etag: string)
    requires members != []
    requires forall i :: 0 <= i < |members| ==> WellFormed(members[i]) && members[i].Member? && NoComma(members[i].tag)
    ensures MatchesIfNoneMatch(Listed(members), etag) <==> etag in TagsOf(members)
  {
    ListIsNoWildcard(members);
    ListedReadsBack(members);
    assert |Printed(members[0])| >= 2;
  }

  /** The empty header has no parts that match. */
  lemma NeverListsEmpty(members: seq<Member>, etag: string)
    requires members != [] && (forall i :: 0 <= i < |members| ==> WellFormed(members[i])) && Quotes(etag) >= 2
    ensures Listed(members) == "" ==> etag !in TagsOf(members) || !NoComma(etag)
  {
    if Listed(members) == "" {
      ListMatches(members, etag);
      TooFewQuotes("", etag);
    }
  }

  lemma {:induction false} ListedTagsAreQuoted(members: seq<Member>, tag: string)
    requires (forall i :: 0 <= i < |members| ==> WellFormed(members[i])) && tag in TagsOf(members)
    ensures QuotedTag(tag)
  {
    if !(members[0].Member? && members[0].tag == tag) {
      ListedTagsAreQuoted(members[1..], tag);
    }
  }

  /** A weak tag that a handler sets itself is on no list: its own client never gets a 304 for it. */
  lemma OwnWeakTagNeverListed(members: seq<Member>, tag: string)
    requires members != [] && (forall i :: 0 <= i < |members| ==> WellFormed(members[i])) && QuotedTag(tag)
    ensures !MatchesIfNoneMatch(Listed(members), "W/" + tag)
  {
    QuotedHasTwo(tag, "W/");
    ListIsNoWildcard(members);
    ListMatches(members, "W/" + tag);
    if "W/" + tag in TagsOf(members) {
      ListedTagsAreQuoted(members, "W/" + tag);
      assert false;
    }
  }

  // ---- buffered against direct ----

  function Written(calls: seq<Call>): Bytes {
    if calls == [] then []
    else Written(calls[..|calls| - 1]) + match calls[|calls| - 1] case Write(data) => data case _ => []
  }

  /** The code of the first call that settles the header. */
  function FirstCode(calls: seq<Call>): Option<int> {
    if calls == [] then None
    else
      var first := FirstCode(calls[..|calls| - 1]);
      if first.Some? then first
      else
        match calls[|calls| - 1]
        case SetContentType(_) => None
        case WriteHeader(code) => Some(code)
        case _ => Some(200)
  }

  predicate Flushes(calls: seq<Call>) {
    Flush in calls
  }

  /** The content type names a stream when the header is settled. */
  function StreamTyped(calls: seq<Call>): bool {
    if calls == [] then false
    else
      var before := calls[..|calls| - 1];
      if FirstCode(before).Some? then StreamTyped(before)
      else !calls[|calls| - 1].SetContentType? && IsStreamingContentType(Buffered(before).contentType)
  }

  /** The status that goes out for a code: an informational one is followed by 200. */
  function FinalFor(code: Option<int>): int {
    if code.None? || Informational(code.value) then 200 else code.value
  }

  function WithBody(status: int, body: Bytes): Client {
    Client(Some(status), if BodyAllowed(status) then body else [])
  }

  /** The status under which a streamed or buffered response leaves. */
  function StatusThrough(calls: seq<Call>): int {
    if Flushes(calls) && !StreamTyped(calls) then 200 else FinalFor(FirstCode(calls))
  }

  // ---- what each side sends ----

  /** The direct response, in closed form apart from its status. */
  lemma {:induction false} DirectSends(calls: seq<Call>)
    ensures var d := Direct(calls);
            && Finished(d) == WithBody(Finished(d).status.value, Written(calls))
            && (FirstCode(calls).None? ==> d == NoResponse && Written(calls) == [])
            && (FirstCode(calls).Some? && !Informational(FirstCode(calls).value) ==> d.status == FirstCode(calls))
            && (d.status.None? ==> Written(calls) == [])
  {
    if calls != [] {
      DirectSends(calls[..|calls| - 1]);
    }
  }

  /** The writer while it buffers. */
  ghost predicate Holding(calls: seq<Call>, w: Writer) {
    && w.client == NoResponse && w.buf == Written(calls)
    && w.wroteHdr == FirstCode(calls).Some?
    && (w.wroteHdr ==> w.status == FirstCode(calls).value)
    && (!w.wroteHdr ==> w.status == 200 && w.buf == [])
  }

  /** The writer once it streams: what it has sent, and would send, is fixed up to the body. */
  ghost predicate Streaming(calls: seq<Call>, w: Writer) {
    && FirstCode(calls).Some? && w.wroteHdr && w.streaming && w.buf == []
    && (w.client.status == Some(StatusThrough(calls)) ||
        (w.client == NoResponse && Written(calls) == [] && StatusThrough(calls) == 200))
    && Finished(w.client) == WithBody(StatusThrough(calls), Written(calls))
  }

  ghost predicate Sorted(calls: seq<Call>, w: Writer) {
    && w.streaming == (Flushes(calls) || StreamTyped(calls))
    && (if w.streaming then Streaming(calls, w) else Holding(calls, w))
  }

  lemma StreamingStays(calls: seq<Call>, w: Writer, call: Call)
    requires Sorted(calls, w) && w.streaming && w == Buffered(calls)
    ensures Sorted(calls + [call], OnCall(w, call))
  {
    assert (calls + [call])[..|calls|] == calls;
    assert Flushes(calls + [call]) <==> Flushes(calls) || call == Flush;
  }

  lemma HoldingMoves(calls: seq<Call>, w: Writer, call: Call)
    requires Sorted(calls, w) && !w.streaming && w == Buffered(calls)
    ensures Sorted(calls + [call], OnCall(w, call))
  {
    assert (calls + [call])[..|calls|] == calls;
    assert Flushes(calls + [call]) <==> Flushes(calls) || call == Flush;
  }

  lemma {:induction false} BufferedInvariant(calls: seq<Call>)
    ensures Sorted(calls, Buffered(calls))
  {
    if calls != [] {
      var before, last := calls[..|calls| - 1], calls[|calls| - 1];
      BufferedInvariant(before);
      assert calls == before + [last];
      if Buffered(before).streaming {
        StreamingStays(before, Buffered(before), last);
      } else {
        HoldingMoves(before, Buffered(before), last);
      }
    }
  }

  // ---- the middleware refines direct writing ----

  /** The server accepts three-digit codes only. */
  ghost predicate ValidCodes(calls: seq<Call>) {
    forall i :: 0 <= i < |calls| && calls[i].WriteHeader? ==> 100 <= calls[i].code <= 999
  }

  lemma {:induction false} FirstCodeIsValid(calls: seq<Call>)
    requires ValidCodes(calls)
    ensures FirstCode(calls).Some? ==> 100 <= FirstCode(calls).value <= 999
  {
    if calls != [] {
      FirstCodeIsValid(calls[..|calls| - 1]);
    }
  }

  predicate NotModified(calls: seq<Call>, explicit: string, ifNoneMatch: string, hash: Bytes -> string) {
    !Flushes(calls) && !StreamTyped(calls) &&
        MatchesIfNoneMatch(ifNoneMatch, if explicit != "" then explicit else hash(Written(calls)))
  }

  /**
   A matching tag turns an unflushed, unstreamed response into a bare 304, whatever its status.
   Any other response carries everything written, under the handler's first status, except that
   a flush of an unstreamed response sends 200.
   */
  lemma ResponseSends(calls: seq<Call>, explicit: string, ifNoneMatch: string, hash: Bytes -> string)
    requires ValidCodes(calls)
    ensures Response(calls, explicit, ifNoneMatch, hash) ==
            if NotModified(calls, explicit, ifNoneMatch, hash) then Client(Some(304), [])
            else WithBody(StatusThrough(calls), Written(calls))
  {
    BufferedInvariant(calls);
    FirstCodeIsValid(calls);
  }

  /** The status that direct writing sends: the first final code, or 200 at the first write or flush. */
  function FirstFinal(calls: seq<Call>): Option<int> {
    if calls == [] then None
    else
      var first := FirstFinal(calls[..|calls| - 1]);
      if first.Some? then first
      else
        match calls[|calls| - 1]
        case SetContentType(_) => None
        case WriteHeader(code) => if Informational(code) then None else Some(code)
        case _ => Some(200)
  }

  lemma {:induction false} DirectStatus(calls: seq<Call>)
    ensures Direct(calls).status == FirstFinal(calls)
  {
    if calls != [] {
      DirectStatus(calls[..|calls| - 1]);
    }
  }

  /** The handler's status does not get through: a flush promotes the response, or an informational code comes first. */
  predicate LosesStatus(calls: seq<Call>) {
    (Flushes(calls) && !StreamTyped(calls)) || (FirstCode(calls).Some? && Informational(FirstCode(calls).value))
  }

  /** A 404 that is flushed reaches the client as a 200. */
  lemma FlushedNotFound(body: Bytes, hash: Bytes -> string)
    ensures Response([WriteHeader(404), Write(body), Flush], "", "", hash) == Client(Some(200), body)
    ensures Finished(Direct([WriteHeader(404), Write(body), Flush])) == Client(Some(404), body)
  {
    var calls := [WriteHeader(404), Write(body), Flush];
    assert calls[..2] == [WriteHeader(404), Write(body)] && calls[..2][..1] == [WriteHeader(404)];
    assert calls[..2][..1][..0] == [];
    assert !IsStreamingContentType("");
    assert Buffered([WriteHeader(404)]) == FreshWriter.(wroteHdr := true, status := 404);
    assert Buffered(calls[..2]) == FreshWriter.(wroteHdr := true, status := 404, buf := body);
    assert Direct([WriteHeader(404)]) == Client(Some(404), []);
    assert Direct(calls[..2]) == Client(Some(404), body);
  }

  /** Exactly when a response that is not a 304 is the one the handler would have sent itself. */
  lemma ResponseRefinesDirectIff(calls: seq<Call>, explicit: string, ifNoneMatch: string, hash: Bytes -> string)
    requires ValidCodes(calls) && !NotModified(calls, explicit, ifNoneMatch, hash)
    ensures Response(calls, explicit, ifNoneMatch, hash) == Finished(Direct(calls)) <==>
            !LosesStatus(calls) || FirstFinal(calls) in {None, Some(200)}
  {
    ResponseSends(calls, explicit, ifNoneMatch, hash);
    DirectSends(calls);
    DirectStatus(calls);
  }

  // ---- the writer as an object ----

  class EtagResponseWriter {
    var contentType: string
    var buf: Bytes
    var status: int
    var streaming: bool
    var wroteHdr: bool
    var client: Client

    ghost function View(): Writer
      reads this
    {
      Writer(contentType, buf, status, streaming, wroteHdr, client)
    }

    constructor ()
      ensures View() == FreshWriter
    {
      contentType, buf, status, streaming, wroteHdr, client := "", [], 200, false, false, NoResponse;
    }

    method WriteHeader(code: int)
      modifies this
      ensures View() == OnWriteHeader(old(View()), code)
    {
      if wroteHdr {
        return;
      }
      wroteHdr := true;
      status := code;
      if IsStreamingContentType(contentType) {
        streaming := true;
        client := SendHeader(client, code);
      }
    }

    method Write(data: Bytes)
      modifies this
      ensures View() == OnWrite(old(View()), data)
    {
      if !wroteHdr {
        WriteHeader(200);
      }
      if streaming {
        client := SendBody(client, data);
      } else {
        buf := buf + data;
      }
    }

    method Flush()
      modifies this
      ensures View() == OnFlush(old(View()))
    {
      if !wroteHdr {
        WriteHeader(200);
      }
      if !streaming {
        streaming := true;
        if |buf| > 0 {
          client := SendBody(client, buf);
          buf := [];
        }
      }
      client := SendHeader(client, 200);
    }

    method EmptyBuffer()
      modifies this`client
      ensures client == Emptied(old(View()))
    {
      if status != 0 && status != 200 {
        client := SendHeader(client, status);
      }
      client := SendBody(client, buf);
    }

    method Replay(calls: seq<Call>)
      requires View() == FreshWriter
      modifies this
      ensures View() == Buffered(calls)
    {
      for i := 0 to |calls|
        invariant View() == Buffered(calls[..i])
      {
        assert calls[..i + 1][..i] == calls[..i];
        match calls[i] {
          case SetContentType(value) => contentType := value;
          case WriteHeader(code) => WriteHeader(code);
          case Write(data) => Write(data);
          case Flush => Flush();
        }
      }
      assert calls[..|calls|] == calls;
    }
  }

  /** The middleware around a handler that makes the given calls. */
  method ServeWithETag(httpMethod: string, calls: seq<Call>, explicit: string, ifNoneMatch: string,
      hash: Bytes -> string)
    returns (sent: Client)
    ensures httpMethod == "GET" || httpMethod == "HEAD" ==> sent == Response(calls, explicit, ifNoneMatch, hash)
    ensures httpMethod != "GET" && httpMethod != "HEAD" ==> sent == Finished(Direct(calls))
  {
    if httpMethod != "GET" && httpMethod != "HEAD" {
      return Finished(Direct(calls));
    }
    var w := new EtagResponseWriter();
    w.Replay(calls);
    if w.streaming {
      return Finished(w.client);
    }
    var etag := if explicit != "" then explicit else hash(w.buf);
    var matched := MatchIfNoneMatch(ifNoneMatch, etag);
    if matched {
      return SendHeader(w.client, 304);
    }
    w.EmptyBuffer();
    return w.client;
  }
}
