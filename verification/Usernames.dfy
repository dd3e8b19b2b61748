/** The SSH username grammar (internal/core/box/spec.go):

      name[~backend][:image[:flavor]][+ | +duration]

    The duration text is read by time.ParseDuration, which is a parameter here. */
module Usernames {
  import opened Common

  datatype Spec = Spec(name: string, backend: string, image: string, flavor: string,
                       grace: int, forceNew: bool, special: string, sessionID: string)

  type DurationReader = string -> Option<int>

  const SESSION := "session-"

  predicate Reserved(username: string) {
    username == "cli" || username == "sudo" || username == "_" || HasPrefix(username, SESSION)
  }

  function SpecialSpec(kind: string, id: string): Spec {
    Spec("", "", "", "", 0, false, kind, id)
  }

  function ParseSpec(username: string, dur: DurationReader): Result<Spec> {
    if username == "" then Err
    else if HasPrefix(username, SESSION) then Ok(SpecialSpec("session", username[|SESSION|..]))
    else if Reserved(username) then Ok(SpecialSpec(username, ""))
    else
      var i := LastIndexOf(username, '+');
      if i < 0 then ParseBody(username, 0, false)
      else if i + 1 == |username| then ParseBody(username[..i], 0, true)
      else match dur(username[i + 1..])
        case None => Err
        case Some(d) => ParseBody(username[..i], d, false)
  }

  function ParseBody(rest: string, grace: int, forceNew: bool): Result<Spec> {
    var segs := Split(rest, ':');
    var cut := IndexOf(segs[0], '~');
    if cut == 0 || |segs| > 3 then Err
    else Ok(Spec(segs[0][..cut],
                 if cut < |segs[0]| then segs[0][cut + 1..] else "",
                 if |segs| > 1 then segs[1] else "",
                 if |segs| > 2 then segs[2] else "",
                 grace, forceNew, "", ""))
  }

  // ---- the grammar, stated without reference to the parser ----

  /** seg spells the name and backend: the '~' may be left out when there is no backend. */
  ghost predicate NameSegment(seg: string, s: Spec) {
    seg == s.name + "~" + s.backend || (s.backend == "" && seg == s.name)
  }

  /** tail spells image and flavor: trailing empty segments may be left out. */
  ghost predicate ImageSegments(tail: seq<string>, s: Spec) {
    || tail == [s.image, s.flavor]
    || (s.flavor == "" && tail == [s.image])
    || (s.flavor == "" && s.image == "" && tail == [])
  }

  ghost predicate Body(body: string, s: Spec) {
    exists seg, tail :: NameSegment(seg, s) && ImageSegments(tail, s) && body == Join([seg] + tail, ':')
  }

  /** The modifier after the body: nothing, a bare '+', or '+' and a duration. */
  ghost predicate Modified(username: string, body: string, s: Spec, dur: DurationReader) {
    || (username == body && '+' !in body && s.grace == 0 && !s.forceNew)
    || (username == body + "+" && s.grace == 0 && s.forceNew)
    || (exists text :: text != "" && '+' !in text && username == body + "+" + text
                       && dur(text) == Some(s.grace) && !s.forceNew)
  }

  predicate WellFormed(s: Spec) {
    && s.special == "" && s.sessionID == ""
    && s.name != "" && ':' !in s.name && '~' !in s.name && !HasPrefix(s.name, SESSION)
    && ':' !in s.backend && ':' !in s.image && ':' !in s.flavor
    && (s.forceNew ==> s.grace == 0)
  }

  /** username is a derivation of the well-formed spec s. */
  ghost predicate Derives(username: string, s: Spec, dur: DurationReader) {
    WellFormed(s) && !Reserved(username)
    && exists body :: Body(body, s) && Modified(username, body, s, dur)
  }

  // ---- parser soundness and completeness ----

  lemma NameSegmentParses(seg: string, s: Spec)
    requires NameSegment(seg, s) && '~' !in s.name
    ensures IndexOf(seg, '~') == |s.name| && seg[..|s.name|] == s.name
    ensures s.backend == if |s.name| < |seg| then seg[|s.name| + 1..] else ""
  {
    IndexOfFirst(s.name, s.backend, '~');
    assert (s.name + ['~'] + s.backend)[|s.name| + 1..] == s.backend;
  }

  lemma SegmentsParse(rest: string, seg: string, tail: seq<string>, s: Spec)
    requires WellFormed(s) && NameSegment(seg, s) && ImageSegments(tail, s)
    requires Split(rest, ':') == [seg] + tail
    ensures ParseBody(rest, s.grace, s.forceNew) == Ok(s)
  {
    NameSegmentParses(seg, s);
    hide IndexOf, Split, NameSegment;
    var segs := [seg] + tail;
    assert segs[0] == seg && segs[1..] == tail;
    assert |segs| > 1 ==> segs[1] == tail[0];
    assert |segs| > 2 ==> segs[2] == tail[1];
  }

  lemma BodyParses(body: string, s: Spec)
    requires WellFormed(s) && Body(body, s)
    ensures ParseBody(body, s.grace, s.forceNew) == Ok(s)
  {
    var seg, tail :| NameSegment(seg, s) && ImageSegments(tail, s) && body == Join([seg] + tail, ':');
    hide Split, Join, ParseBody;
    assert ':' !in seg;
    assert forall p :: p in [seg] + tail ==> ':' !in p;
    SplitJoin([seg] + tail, ':');
    SegmentsParse(body, seg, tail, s);
  }

  /** A split segment spells its own name and backend. */
  lemma SegmentSpells(seg: string, s: Spec)
    requires ':' !in seg
    requires var cut := IndexOf(seg, '~');
             s.name == seg[..cut] && s.backend == if cut < |seg| then seg[cut + 1..] else ""
    ensures NameSegment(seg, s) && ':' !in s.name && '~' !in s.name && ':' !in s.backend
    ensures HasPrefix(seg, s.name)
  {
    var cut := IndexOf(seg, '~');
    IndexOfLacks(seg, '~');
    hide IndexOf;
    SliceLacks(seg, 0, cut, ':');
    assert s.name == seg[0..cut];
    if cut < |seg| {
      SliceLacks(seg, cut + 1, |seg|, ':');
      CutAt(seg, cut, s.name, s.backend);
    }
  }

  lemma SplitHead(rest: string)
    ensures var segs := Split(rest, ':');
            HasPrefix(rest, segs[0]) && rest == Join([segs[0]] + segs[1..], ':')
  {
  }

  lemma ParsedBody(rest: string, grace: int, forceNew: bool, s: Spec)
    requires ParseBody(rest, grace, forceNew) == Ok(s)
    ensures Body(rest, s) && s.grace == grace && s.forceNew == forceNew
    ensures s.name != "" && ':' !in s.name && '~' !in s.name && HasPrefix(rest, s.name)
    ensures ':' !in s.backend && ':' !in s.image && ':' !in s.flavor
    ensures s.special == "" && s.sessionID == ""
  {
    var segs := Split(rest, ':');
    forall k | 0 <= k < |segs| ensures ':' !in segs[k] {
      SplitLacks(rest, ':', k);
    }
    SplitHead(rest);
    SegmentSpells(segs[0], s);
    hide Split, IndexOf, Join, NameSegment;
    assert ImageSegments(segs[1..], s);
  }

  lemma DerivedParses(username: string, dur: DurationReader, s: Spec)
    requires Derives(username, s, dur)
    ensures ParseSpec(username, dur) == Ok(s)
  {
    var body :| Body(body, s) && Modified(username, body, s, dur);
    BodyParses(body, s);
    BodyNonEmpty(body, s);
    ModifierParses(username, body, s, dur);
  }

  lemma ModifierParses(username: string, body: string, s: Spec, dur: DurationReader)
    requires !Reserved(username) && body != "" && Modified(username, body, s, dur)
    ensures ParseSpec(username, dur) == ParseBody(body, s.grace, s.forceNew)
  {
    if username == body && '+' !in body {
      assert LastIndexOf(username, '+') == -1 by { assert forall ch :: ch in body ==> ch != '+'; }
    } else if username == body + "+" && s.forceNew {
      LastIndexOfLast(body, "", '+');
      assert username[..|body|] == body && username == body + ['+'] + "";
    } else {
      var text :| text != "" && '+' !in text && username == body + "+" + text
                  && dur(text) == Some(s.grace) && !s.forceNew;
      LastIndexOfLast(body, text, '+');
      assert username[..|body|] == body && username[|body| + 1..] == text;
    }
  }

  lemma ParsedModifier(username: string, dur: DurationReader, s: Spec) returns (body: string)
    requires ParseSpec(username, dur) == Ok(s) && s.special == ""
    ensures !Reserved(username) && HasPrefix(username, body)
    ensures ParseBody(body, s.grace, s.forceNew) == Ok(s)
    ensures Modified(username, body, s, dur)
  {
    var i := LastIndexOf(username, '+');
    LastIndexOfLacks(username, '+');
    body := if i < 0 then username else username[..i];
    assert i < 0 ==> username[i + 1..] == username;
    assert i >= 0 ==> username == body + "+" + username[i + 1..];
  }

  lemma ParsedDerives(username: string, dur: DurationReader, s: Spec)
    requires ParseSpec(username, dur) == Ok(s) && s.special == ""
    ensures Derives(username, s, dur)
  {
    var body := ParsedModifier(username, dur, s);
    ParsedBody(body, s.grace, s.forceNew, s);
    assert HasPrefix(username, s.name);
  }

  /** ParseSpec accepts exactly the derivations of the grammar and returns the spec they derive. */
  lemma ParseSpecIsTheGrammar(username: string, dur: DurationReader, s: Spec)
    ensures ParseSpec(username, dur) == Ok(s) && s.special == "" <==> Derives(username, s, dur)
  {
    if Derives(username, s, dur) {
      DerivedParses(username, dur, s);
    }
    if ParseSpec(username, dur) == Ok(s) && s.special == "" {
      ParsedDerives(username, dur, s);
    }
  }

  lemma BodyNonEmpty(body: string, s: Spec)
    requires WellFormed(s) && Body(body, s)
    ensures body != ""
  {
  }

  // ---- canonical printing ----

  /** A duration printer the reader inverts, whose text is non-empty and has no '+'. */
  ghost predicate Codec(show: int -> string, dur: DurationReader) {
    forall d :: show(d) != "" && '+' !in show(d) && dur(show(d)) == Some(d)
  }

  function Print(s: Spec, show: int -> string): string {
    var seg := if s.backend == "" then s.name else s.name + "~" + s.backend;
    var tail := if s.flavor != "" then [s.image, s.flavor] else if s.image != "" then [s.image] else [];
    Join([seg] + tail, ':') + "+" + (if s.forceNew then "" else show(s.grace))
  }

  lemma PrintDerives(s: Spec, show: int -> string, dur: DurationReader)
    requires WellFormed(s) && Codec(show, dur)
    ensures Derives(Print(s, show), s, dur)
  {
    var seg := if s.backend == "" then s.name else s.name + "~" + s.backend;
    var tail := if s.flavor != "" then [s.image, s.flavor] else if s.image != "" then [s.image] else [];
    var body := Join([seg] + tail, ':');
    assert Body(body, s) by { assert NameSegment(seg, s) && ImageSegments(tail, s); }
    var u := Print(s, show);
    assert s.forceNew ==> u == body + "+";
    assert !s.forceNew ==> show(s.grace) != "" && u == body + "+" + show(s.grace);
    assert Modified(u, body, s, dur);
    assert !Reserved(u) by { PrintNotReserved(u, body, seg, tail, s); }
  }

  lemma PrintNotReserved(u: string, body: string, seg: string, tail: seq<string>, s: Spec)
    requires WellFormed(s) && NameSegment(seg, s) && body == Join([seg] + tail, ':')
    requires HasPrefix(u, body + "+")
    ensures !Reserved(u)
  {
    var n := |s.name|;
    assert HasPrefix(body, seg) && HasPrefix(u, s.name);
    assert u[|body|] == '+' && '+' in u;
    assert u[n] in {'~', ':', '+'} by {
      assert |seg| > n ==> seg[n] == '~' && u[n] == seg[n];
      assert |seg| == n && tail != [] ==> body[n] == ':' && u[n] == body[n];
      assert |seg| == n && tail == [] ==> body == seg;
    }
    assert SESSION == "session-";
    assert n < |SESSION| ==> SESSION[n] != u[n];
    assert n >= |SESSION| ==> s.name[..|SESSION|] == u[..|SESSION|];
  }

  /** Parsing a canonical print gives back the spec. */
  lemma PrintParse(s: Spec, show: int -> string, dur: DurationReader)
    requires WellFormed(s) && Codec(show, dur)
    ensures ParseSpec(Print(s, show), dur) == Ok(s)
  {
    PrintDerives(s, show, dur);
    ParseSpecIsTheGrammar(Print(s, show), dur, s);
  }

  /** Every accepted box username parses to a well-formed spec, so parse-print-parse is parse. */
  lemma ParsePrintParse(username: string, show: int -> string, dur: DurationReader)
    requires Codec(show, dur)
    requires ParseSpec(username, dur).Ok? && ParseSpec(username, dur).value.special == ""
    ensures WellFormed(ParseSpec(username, dur).value)
    ensures ParseSpec(Print(ParseSpec(username, dur).value, show), dur) == ParseSpec(username, dur)
  {
    var s := ParseSpec(username, dur).value;
    ParseSpecIsTheGrammar(username, dur, s);
    PrintParse(s, show, dur);
  }

  function PlainUsername(name: string, image: string): string {
    if image == "" then name else name + ":" + image
  }

  lemma PlainNotReserved(name: string, image: string)
    requires ':' !in name && !Reserved(name)
    ensures !Reserved(PlainUsername(name, image))
  {
    var u := PlainUsername(name, image);
    if image != "" {
      assert u[|name|] == ':' && ':' in u;
      assert SESSION == "session-";
      assert |name| >= |SESSION| ==> u[..|SESSION|] == name[..|SESSION|];
      assert |name| < |SESSION| ==> SESSION[|name|] != u[|name|];
    }
  }

  /** name[:image] without modifiers parses to just that. */
  lemma PlainParses(name: string, image: string, dur: DurationReader)
    requires name != "" && ':' !in name && '~' !in name && '+' !in name && !Reserved(name)
    requires ':' !in image && '+' !in image
    ensures ParseSpec(PlainUsername(name, image), dur) == Ok(Spec(name, "", image, "", 0, false, "", ""))
  {
    var s := Spec(name, "", image, "", 0, false, "", "");
    var u := PlainUsername(name, image);
    var tail := if image == "" then [] else [image];
    assert NameSegment(name, s) && ImageSegments(tail, s);
    assert u == Join([name] + tail, ':');
    assert Body(u, s) && Modified(u, u, s, dur);
    PlainNotReserved(name, image);
    hide Reserved, Body, Modified;
    ParseSpecIsTheGrammar(u, dur, s);
  }

  // ---- which box a username names ----

  /** The text before the last '+', then before the first ':', then before the first '~'. */
  function CutName(u: string): string {
    var i := LastIndexOf(u, '+');
    var body := if i < 0 then u else u[..i];
    var head := body[..IndexOf(body, ':')];
    head[..IndexOf(head, '~')]
  }

  /** Whatever else a username spells, the box it names is its cut text. */
  lemma NameIsTheCut(u: string, dur: DurationReader, s: Spec)
    requires ParseSpec(u, dur) == Ok(s) && s.special == ""
    ensures s.name == CutName(u)
  {
    hide IndexOf, LastIndexOf;
    var i := LastIndexOf(u, '+');
    var body := if i < 0 then u else u[..i];
    SplitFirst(body);
  }

  lemma SplitFirst(s: string)
    ensures Split(s, ':')[0] == s[..IndexOf(s, ':')]
  {
  }

  // ---- special usernames ----

  /** The reserved words name no box, and anything after "session-" is a session id. */
  lemma SpecialsParse(id: string, dur: DurationReader)
    ensures ParseSpec("cli", dur) == Ok(Spec("", "", "", "", 0, false, "cli", ""))
    ensures ParseSpec("sudo", dur) == Ok(Spec("", "", "", "", 0, false, "sudo", ""))
    ensures ParseSpec("_", dur) == Ok(Spec("", "", "", "", 0, false, "_", ""))
    ensures ParseSpec("session-" + id, dur) == Ok(Spec("", "", "", "", 0, false, "session", id))
    ensures ParseSpec("", dur) == Err
  {
    var u := "session-" + id;
    assert u[..8] == "session-" && u[8..] == id;
    assert "cli"[0] != SESSION[0] && "sudo"[1] != SESSION[1] && "_"[0] != SESSION[0];
  }

  /** And nothing else is special. */
  lemma OnlyThoseAreSpecial(u: string, dur: DurationReader)
    requires u != "cli" && u != "sudo" && u != "_" && !("session-" <= u)
    ensures ParseSpec(u, dur).Ok? ==> ParseSpec(u, dur).value.special == ""
  {
    hide Split, IndexOf, LastIndexOf;
  }
}
