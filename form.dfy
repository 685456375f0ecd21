/**
 * The dashboard's page form schema (dashboard/src/lib/types/form.ts): three
 * text fields, each trimmed and then checked for presence, a minimum
 * length of 2 and a maximum length, reporting at most one message.
 * Lengths are JavaScript string lengths, in UTF-16 code units.
 */
module Form {
  import opened Wrappers

  /** The characters JavaScript's `String.prototype.trim` strips: white space and line terminators. */
  predicate IsJsSpace(c: char) {
    c == '\t' || c == '\n' || c == '\U{000B}' || c == '\U{000C}' || c == '\r' || c == ' '
    || c == '\U{00A0}' || c == '\U{1680}' || ('\U{2000}' <= c <= '\U{200A}')
    || c == '\U{2028}' || c == '\U{2029}' || c == '\U{202F}' || c == '\U{205F}'
    || c == '\U{3000}' || c == '\U{FEFF}'
  }

  predicate AllSpace(s: string) {
    forall i :: 0 <= i < |s| ==> IsJsSpace(s[i])
  }

  /** How many white-space characters `s` starts with: all of them are white space, the next one is not. */
  function LeadingSpaces(s: string): (n: nat)
    ensures n <= |s|
    ensures forall i :: 0 <= i < n ==> IsJsSpace(s[i])
    ensures n < |s| ==> !IsJsSpace(s[n])
  {
    if s != [] && IsJsSpace(s[0]) then 1 + LeadingSpaces(s[1..]) else 0
  }

  /** How many white-space characters `s` ends with: all of them are white space, the one before is not. */
  function TrailingSpaces(s: string): (n: nat)
    ensures n <= |s|
    ensures forall i :: |s| - n <= i < |s| ==> IsJsSpace(s[i])
    ensures n < |s| ==> !IsJsSpace(s[|s| - 1 - n])
  {
    if s != [] && IsJsSpace(s[|s| - 1]) then 1 + TrailingSpaces(s[..|s| - 1]) else 0
  }

  /** `s` without its leading white space. */
  function TrimStart(s: string): string {
    s[LeadingSpaces(s)..]
  }

  /** `s` without its trailing white space. */
  function TrimEnd(s: string): string {
    s[..|s| - TrailingSpaces(s)]
  }

  /** `String.prototype.trim`. */
  function Trim(s: string): string {
    TrimEnd(TrimStart(s))
  }

  /** A trimmed string neither starts nor ends with white space. */
  lemma TrimEdges(s: string)
    ensures var t := Trim(s); t == [] || (!IsJsSpace(t[0]) && !IsJsSpace(t[|t| - 1]))
  {
    var u := TrimStart(s);
    var t := TrimEnd(u);
    if t != [] {
      assert t[0] == u[0] == s[LeadingSpaces(s)];
      assert t[|t| - 1] == u[|u| - 1 - TrailingSpaces(u)];
    }
  }

  /** A string that neither starts nor ends with white space is its own trim. */
  lemma TrimNoop(s: string)
    requires s == [] || (!IsJsSpace(s[0]) && !IsJsSpace(s[|s| - 1]))
    ensures Trim(s) == s
  {
    assert LeadingSpaces(s) == 0;
    assert s[0..] == s;
  }

  /** Leading white space put in front of `s` adds to its count. */
  lemma {:induction false} LeadingSpacesOfPadded(ws: string, s: string)
    requires AllSpace(ws)
    ensures LeadingSpaces(ws + s) == |ws| + LeadingSpaces(s)
  {
    if ws == [] {
      assert ws + s == s;
    } else {
      var t := ws + s;
      assert t[0] == ws[0];
      assert t[1..] == ws[1..] + s;
      LeadingSpacesOfPadded(ws[1..], s);
    }
  }

  /** Trailing white space put after `s` adds to its count. */
  lemma {:induction false} TrailingSpacesOfPadded(s: string, ws: string)
    requires AllSpace(ws)
    ensures TrailingSpaces(s + ws) == TrailingSpaces(s) + |ws|
  {
    if ws == [] {
      assert s + ws == s;
    } else {
      var t := s + ws;
      assert t[|t| - 1] == ws[|ws| - 1];
      assert t[..|t| - 1] == s + ws[..|ws| - 1];
      TrailingSpacesOfPadded(s, ws[..|ws| - 1]);
    }
  }

  /** Text appended to a string that is not all white space leaves its leading white space alone. */
  lemma {:induction false} LeadingSpacesOfExtended(s: string, t: string)
    requires LeadingSpaces(s) < |s|
    ensures LeadingSpaces(s + t) == LeadingSpaces(s)
  {
    if IsJsSpace(s[0]) {
      assert (s + t)[0] == s[0];
      assert (s + t)[1..] == s[1..] + t;
      LeadingSpacesOfExtended(s[1..], t);
    } else {
      assert (s + t)[0] == s[0];
    }
  }

  /** Dropping leading white space ignores how much of it there was. */
  lemma TrimStartPadded(ws: string, s: string)
    requires AllSpace(ws)
    ensures TrimStart(ws + s) == TrimStart(s)
  {
    LeadingSpacesOfPadded(ws, s);
    assert (ws + s)[|ws| + LeadingSpaces(s)..] == s[LeadingSpaces(s)..];
  }

  /** Dropping trailing white space ignores how much of it there was. */
  lemma TrimEndPadded(s: string, ws: string)
    requires AllSpace(ws)
    ensures TrimEnd(s + ws) == TrimEnd(s)
  {
    TrailingSpacesOfPadded(s, ws);
    assert (s + ws)[..|s| - TrailingSpaces(s)] == s[..|s| - TrailingSpaces(s)];
  }

  /** Trimming ignores white space appended to the text. */
  lemma TrimPadded(s: string, ws: string)
    requires AllSpace(ws)
    ensures Trim(s + ws) == Trim(s)
  {
    var k := LeadingSpaces(s);
    if k < |s| {
      LeadingSpacesOfExtended(s, ws);
      assert TrimStart(s + ws) == TrimStart(s) + ws;
      TrimEndPadded(TrimStart(s), ws);
    } else {
      var t := s + ws;
      assert AllSpace(t);
      LeadingSpacesOfPadded(t, []);
      assert t + [] == t;
      assert TrimStart(t) == [];
      assert TrimStart(s) == [];
    }
  }

  /** Trimming ignores any white space added around the text. */
  lemma TrimIgnoresPadding(before: string, s: string, after: string)
    requires AllSpace(before) && AllSpace(after)
    ensures Trim(before + s + after) == Trim(s)
  {
    assert before + s + after == before + (s + after);
    TrimStartPadded(before, s + after);
    TrimPadded(s, after);
  }

  /** Trimming twice is trimming once. */
  lemma TrimIdempotent(s: string)
    ensures Trim(Trim(s)) == Trim(s)
  {
    TrimEdges(s);
    TrimNoop(Trim(s));
  }

  /** The JavaScript length of a string: characters beyond U+FFFF take two UTF-16 code units. */
  function Utf16Length(s: string): (n: nat)
    ensures |s| <= n <= 2 * |s|
  {
    if s == [] then 0 else Utf16Length(s[..|s| - 1]) + (if s[|s| - 1] as int > 0xFFFF then 2 else 1)
  }

  /** The three fields of the form. */
  datatype Field = Logo | Title | Description

  function Label(f: Field): string {
    match f
    case Logo => "Logo"
    case Title => "Title"
    case Description => "Description"
  }

  /** The upper length bound per field (dashboard/src/lib/types/form.ts:16, 33, 53). */
  function MaxLength(f: Field): nat {
    if f == Description then 100 else 50
  }

  /** The three ways a field can fail, in the order they are tested. */
  datatype Issue = Required | TooShort | TooLong

  /** The message each issue adds for a field. */
  function Message(f: Field, issue: Issue): string {
    match issue
    case Required => Label(f) + " is required"
    case TooShort => Label(f) + " must be at least 2 characters long"
    case TooLong => Label(f) + " must not exceed " + (if f == Description then "100" else "50") + " characters"
  }

  /**
   * One field's refinement (dashboard/src/lib/types/form.ts:7-20, 24-37,
   * 41-57): on the trimmed value, the first failing test of
   * required, at least 2, at most the field's maximum.
   */
  function Check(f: Field, raw: string): (r: Option<Issue>)
    ensures r.None? <==> 2 <= Utf16Length(Trim(raw)) <= MaxLength(f)
  {
    var val := Trim(raw);
    if val == [] then Some(Required)
    else if Utf16Length(val) < 2 then Some(TooShort)
    else if Utf16Length(val) > MaxLength(f) then Some(TooLong)
    else None
  }

  /** The messages a field contributes: never more than one. */
  function FieldMessages(f: Field, raw: string): (r: seq<string>)
    ensures |r| <= 1
    ensures r == [] <==> 2 <= Utf16Length(Trim(raw)) <= MaxLength(f)
  {
    match Check(f, raw)
    case None => []
    case Some(issue) => [Message(f, issue)]
  }

  /** Only an empty trimmed value is reported as missing. */
  lemma RequiredExactly(f: Field, raw: string)
    ensures Check(f, raw) == Some(Required) <==> Trim(raw) == []
  {
  }

  /** A trimmed value of length 1 is exactly what is reported as too short. */
  lemma TooShortExactly(f: Field, raw: string)
    ensures Check(f, raw) == Some(TooShort) <==> Utf16Length(Trim(raw)) == 1
  {
  }

  /** Too long exactly when the trimmed value exceeds the field's maximum. */
  lemma TooLongExactly(f: Field, raw: string)
    ensures Check(f, raw) == Some(TooLong) <==> Utf16Length(Trim(raw)) > MaxLength(f)
  {
  }

  /** White space around a value never changes its verdict. */
  lemma CheckIgnoresPadding(f: Field, before: string, s: string, after: string)
    requires AllSpace(before) && AllSpace(after)
    ensures Check(f, before + s + after) == Check(f, s)
  {
    TrimIgnoresPadding(before, s, after);
  }

  /** A single non-space character is its own trim. */
  lemma TrimOfOneCharacter(c: char)
    requires !IsJsSpace(c)
    ensures Trim([c]) == [c]
  {
    TrimNoop([c]);
  }

  /** A character beyond U+FFFF is two UTF-16 code units. */
  lemma AstralLength(c: char)
    requires c as int > 0xFFFF
    ensures Utf16Length([c]) == 2
  {
    assert [c][..0] == [];
  }

  /**
   * Because lengths count UTF-16 code units, one character beyond U+FFFF
   * already satisfies the minimum of two.
   */
  lemma OneAstralCharacterAccepted(f: Field, c: char)
    requires c as int > 0xFFFF
    ensures Check(f, [c]).None?
  {
    TrimOfOneCharacter(c);
    AstralLength(c);
  }

  /** The parsed form: the three values, trimmed. */
  datatype FormData = FormData(logo: string, title: string, description: string)

  /**
   * `formSchema` as a whole: the trimmed values when every field passes,
   * otherwise every field's message in field order.
   */
  function Validate(logo: string, title: string, description: string): (r: Result<FormData, seq<string>>)
    ensures r.Success? <==> Check(Logo, logo).None? && Check(Title, title).None? && Check(Description, description).None?
    ensures r.Success? ==> r.value == FormData(Trim(logo), Trim(title), Trim(description))
    ensures r.Failure? ==> 1 <= |r.error| <= 3
  {
    var messages := FieldMessages(Logo, logo) + FieldMessages(Title, title) + FieldMessages(Description, description);
    if messages == [] then Success(FormData(Trim(logo), Trim(title), Trim(description)))
    else Failure(messages)
  }
}
