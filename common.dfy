/** Identifiers, results and the JavaScript string operations the controllers rely on. */
module Common {

  /** A stored document's ObjectId. Ids are handed out in increasing order, so id order is insertion order. */
  type Id = nat

  datatype Option<T> = None | Some(value: T)

  /** A path parameter that should name a document: mongoose's isValidObjectId accepts exactly the
      ObjectId case; anything else is Malformed. */
  datatype IdParam = ObjectId(id: Id) | Malformed(raw: string)

  predicate IsValidObjectId(p: IdParam) { p.ObjectId? }

  /** What a handler throws. ApiError carries the status and message the controller chose;
      TypeError is a JavaScript runtime error (reading a property of null or undefined);
      ValidationError and CastError are raised by the object-document mapper, DatabaseError by the
      database server itself. */
  datatype Error =
    | ApiError(status: nat, message: string)
    | TypeError(message: string)
    | ValidationError(message: string)
    | CastError(message: string)
    | DatabaseError(message: string)

  datatype Result<T> = Ok(value: T) | Err(error: Error)

  /** The reply of a state-changing handler together with the new contents of what it changed. */
  datatype Step<S, R> = Step(reply: Result<R>, state: S)

  /** JavaScript truthiness of an optional string: undefined and "" are falsy. */
  predicate Truthy(s: Option<string>) { s.Some? && s.value != "" }

  /** The characters String.prototype.trim removes: WhiteSpace and LineTerminator of ECMA-262. */
  predicate IsJsWhitespace(c: char)
  {
    || c == '\t' || c == '\n' || c == '\U{B}' || c == '\U{C}' || c == '\r' || c == ' '
    || c == '\U{A0}' || c == '\U{1680}' || ('\U{2000}' <= c <= '\U{200A}')
    || c == '\U{2028}' || c == '\U{2029}' || c == '\U{202F}' || c == '\U{205F}'
    || c == '\U{3000}' || c == '\U{FEFF}'
  }

  function TrimStart(s: string): (r: string)
    ensures |r| <= |s| && r == s[|s| - |r|..]
    ensures r == [] || !IsJsWhitespace(r[0])
    ensures forall i :: 0 <= i < |s| - |r| ==> IsJsWhitespace(s[i])
  {
    if s != [] && IsJsWhitespace(s[0]) then TrimStart(s[1..]) else s
  }

  function TrimEnd(s: string): (r: string)
    ensures |r| <= |s| && r == s[..|r|]
    ensures r == [] || !IsJsWhitespace(r[|r| - 1])
    ensures forall i :: |r| <= i < |s| ==> IsJsWhitespace(s[i])
  {
    if s != [] && IsJsWhitespace(s[|s| - 1]) then TrimEnd(s[..|s| - 1]) else s
  }

  function Trim(s: string): string { TrimEnd(TrimStart(s)) }

  /** `s.trim() === ""`, stated as what it means: every character is one that trim removes. */
  predicate IsBlank(s: string)
  {
    forall i :: 0 <= i < |s| ==> IsJsWhitespace(s[i])
  }

  /** Trimming leaves the empty string exactly when the string is blank. */
  lemma TrimEmptyIffBlank(s: string)
    ensures Trim(s) == "" <==> IsBlank(s)
  {
    var t := TrimStart(s);
    if Trim(s) == "" {
      // what TrimStart leaves starts with a visible character, so TrimEnd would keep it
      assert t == [];
    } else {
      var r := Trim(s);
      assert r != [] && r == t[..|r|];
      assert !IsJsWhitespace(s[|s| - |t|]);
    }
  }

  /** A required body field checked with `field.trim() === ""`: undefined has no `trim`, and a blank
      value is refused with the handler's own status and message. */
  function RequiredText(field: Option<string>, status: nat, message: string): (r: Result<string>)
    ensures r.Ok? <==> field.Some? && !IsBlank(field.value)
    ensures r.Ok? ==> r.value == field.value
    ensures field.None? ==> r.Err? && r.error.TypeError?
    ensures field.Some? && IsBlank(field.value) ==> r == Err(ApiError(status, message))
  {
    match field
    case None => Err(TypeError("Cannot read properties of undefined (reading 'trim')"))
    case Some(s) => if IsBlank(s) then Err(ApiError(status, message)) else Ok(s)
  }

  /** ASCII case folding as String.prototype.toLowerCase does it for A-Z. */
  function LowerChar(c: char): char
  {
    if 'A' <= c <= 'Z' then (c as int + 32) as char else c
  }

  function ToLower(s: string): (r: string)
    ensures |r| == |s|
    ensures forall i :: 0 <= i < |s| ==> r[i] == LowerChar(s[i])
  {
    if s == [] then [] else [LowerChar(s[0])] + ToLower(s[1..])
  }

  lemma {:induction false} ToLowerIdempotent(s: string)
    ensures ToLower(ToLower(s)) == ToLower(s)
  {
    if s != [] {
      ToLowerIdempotent(s[1..]);
      assert ToLower(s)[1..] == ToLower(s[1..]);
    }
  }

  /** `pattern` occurs in `text` starting at position k. */
  predicate OccursAt(text: string, pattern: string, k: nat)
  {
    k + |pattern| <= |text| && text[k..k + |pattern|] == pattern
  }

  /** Substring search, the meaning of an unanchored regular expression made of literal characters. */
  function Contains(text: string, pattern: string): (b: bool)
    ensures b <==> exists k :: 0 <= k <= |text| && OccursAt(text, pattern, k)
  {
    if |pattern| > |text| then false
    else if text[..|pattern|] == pattern then (assert OccursAt(text, pattern, 0); true)
    else
      var rest := Contains(text[1..], pattern);
      if rest then
        var k :| 0 <= k <= |text[1..]| && OccursAt(text[1..], pattern, k);
        assert OccursAt(text, pattern, k + 1);
        true
      else
        assert forall k :: 1 <= k <= |text| && OccursAt(text, pattern, k) ==> OccursAt(text[1..], pattern, k - 1);
        false
  }

  /** `{ $regex: pattern, $options: 'i' }` on one string. */
  predicate MatchesIgnoringCase(text: string, pattern: string)
  {
    Contains(ToLower(text), ToLower(pattern))
  }
}
