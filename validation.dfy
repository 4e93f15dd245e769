/**
 * The server's request validators for the party routes. Each one either
 * answers the request with status 400 and an error message, or hands the
 * request on to the route handler (`next()`). They read the request and
 * never change it, so they are modelled as functions from the fields they
 * read to an outcome.
 */
module Validation {

  /** A request field as the validators see it: absent (`undefined`) or a string. */
  datatype Field = Missing | Text(s: string)

  /** `Next` is a call to `next()`; `Reject` is `res.status(status).json({ error })`. */
  datatype Outcome = Next | Reject(status: int, error: string)

  const BadRequest := 400
  const NameRequired := "El nombre del partido es requerido"
  const ColorInvalid := "El color debe ser un código hexadecimal válido (ej: #FF0000)"
  const IdRequired := "ID del partido es requerido"

  /** JavaScript's WhiteSpace and LineTerminator characters, which `trim` removes. */
  predicate IsJsWhitespace(c: char)
  {
    c == '\t' || c == '\n' || c == '\U{000B}' || c == '\U{000C}' || c == '\r'
    || c == ' ' || c == '\U{00A0}' || c == '\U{1680}'
    || ('\U{2000}' <= c <= '\U{200A}')
    || c == '\U{2028}' || c == '\U{2029}' || c == '\U{202F}' || c == '\U{205F}'
    || c == '\U{3000}' || c == '\U{FEFF}'
  }

  function TrimStart(s: string): string
  {
    if s != [] && IsJsWhitespace(s[0]) then TrimStart(s[1..]) else s
  }

  function TrimEnd(s: string): string
  {
    if s != [] && IsJsWhitespace(s[|s| - 1]) then TrimEnd(s[..|s| - 1]) else s
  }

  /** `String.prototype.trim`. */
  function Trim(s: string): string
  {
    TrimEnd(TrimStart(s))
  }

  /** The name carries at least one character that is not white space. */
  predicate HasVisibleChar(s: string)
  {
    exists i :: 0 <= i < |s| && !IsJsWhitespace(s[i])
  }

  /** Letters are matched case-insensitively, as the regular expression's `i` flag does. */
  predicate IsHexDigit(c: char)
  {
    ('0' <= c <= '9') || ('A' <= c <= 'F') || ('a' <= c <= 'f')
  }

  /** The language of `/^#[0-9A-F]{6}$/i`: a `#` and exactly six hexadecimal digits. */
  predicate IsHexColor(s: string)
  {
    |s| == 7 && s[0] == '#' && forall i :: 1 <= i < 7 ==> IsHexDigit(s[i])
  }

  lemma {:induction false} TrimStartEmpty(s: string)
    ensures TrimStart(s) == [] <==> !HasVisibleChar(s)
    ensures TrimStart(s) != [] ==> !IsJsWhitespace(TrimStart(s)[0])
  {
    if s != [] && IsJsWhitespace(s[0]) {
      TrimStartEmpty(s[1..]);
      assert forall i :: 0 <= i < |s[1..]| ==> s[1..][i] == s[i + 1];
      if HasVisibleChar(s) {
        var i :| 0 <= i < |s| && !IsJsWhitespace(s[i]);
        assert s[1..][i - 1] == s[i];
      }
    } else if s != [] {
      assert !IsJsWhitespace(s[0]);
    }
  }

  lemma {:induction false} TrimEndEmpty(s: string)
    ensures TrimEnd(s) == [] <==> !HasVisibleChar(s)
  {
    if s != [] && IsJsWhitespace(s[|s| - 1]) {
      var init := s[..|s| - 1];
      TrimEndEmpty(init);
      if HasVisibleChar(s) {
        var i :| 0 <= i < |s| && !IsJsWhitespace(s[i]);
        assert init[i] == s[i];
      }
      if HasVisibleChar(init) {
        var i :| 0 <= i < |init| && !IsJsWhitespace(init[i]);
        assert s[i] == init[i];
      }
    } else if s != [] {
      assert !IsJsWhitespace(s[|s| - 1]);
    }
  }

  /** `s.trim().length === 0` exactly when every character of `s` is white space. */
  lemma TrimEmptyIffBlank(s: string)
    ensures |Trim(s)| == 0 <==> !HasVisibleChar(s)
  {
    TrimStartEmpty(s);
    var t := TrimStart(s);
    TrimEndEmpty(t);
    if t != [] {
      assert !IsJsWhitespace(t[0]);
    }
  }

  /** The name check: present, non-empty, and not white space only. */
  predicate NameRejected(name: Field)
  {
    name.Missing? || name.s == "" || |Trim(name.s)| == 0
  }

  lemma NameCheck(name: Field)
    ensures NameRejected(name) <==> name.Missing? || !HasVisibleChar(name.s)
  {
    if name.Text? {
      TrimEmptyIffBlank(name.s);
    }
  }

  /** The colour check: present, non-empty, and matching the pattern. */
  predicate ColorRejected(color: Field)
  {
    color.Missing? || color.s == "" || !IsHexColor(color.s)
  }

  /** `validateParty`: the name is checked first, then the colour. */
  function ValidateParty(name: Field, color: Field): (o: Outcome)
    ensures o.Next? <==>
      name.Text? && HasVisibleChar(name.s) && color.Text? && IsHexColor(color.s)
    ensures name.Missing? || !HasVisibleChar(name.s) ==> o == Reject(BadRequest, NameRequired)
    ensures name.Text? && HasVisibleChar(name.s) && !(color.Text? && IsHexColor(color.s))
      ==> o == Reject(BadRequest, ColorInvalid)
  {
    NameCheck(name);
    if NameRejected(name) then Reject(BadRequest, NameRequired)
    else if ColorRejected(color) then Reject(BadRequest, ColorInvalid)
    else Next
  }

  /** `validateVote`: the route's `id` parameter must be present and non-empty. */
  function ValidateVote(id: Field): (o: Outcome)
    ensures o.Next? <==> id.Text? && |id.s| > 0
    ensures o.Reject? ==> o == Reject(BadRequest, IdRequired)
  {
    if id.Missing? || id.s == "" then Reject(BadRequest, IdRequired) else Next
  }

  /** When both fields are bad, the name error is the one reported. */
  lemma NameErrorFirst(name: Field, color: Field)
    requires name.Missing? || !HasVisibleChar(name.s)
    requires ColorRejected(color)
    ensures ValidateParty(name, color).error == NameRequired
  {
  }

  /** Examples: the pattern takes either letter case and nothing around the six digits. */
  lemma ColorExamples()
    ensures ValidateParty(Text("Sol"), Text("#3b82F6")) == Next
    ensures ValidateParty(Text("Sol"), Text("#3B82F")) == Reject(BadRequest, ColorInvalid)
    ensures ValidateParty(Text("Sol"), Text("#3B82F6 ")) == Reject(BadRequest, ColorInvalid)
    ensures ValidateParty(Text(" \t"), Text("#GGGGGG")) == Reject(BadRequest, NameRequired)
  {
    assert !IsHexDigit('G');
    assert HasVisibleChar("Sol") by { assert !IsJsWhitespace("Sol"[0]); }
  }
}
