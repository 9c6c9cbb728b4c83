/** Normalisation of the typed code (script.js:164): JavaScript's
    `String.prototype.trim` followed by `toUpperCase`, and the lookup of the
    normalised code in the roster (script.js:165). */
module CodeInput {

  import opened Wrappers
  import opened Roster

  /** The characters `trim` removes: ECMAScript WhiteSpace and LineTerminator. */
  predicate IsTrimmable(c: char) {
    || c == '\t' || c == '\n' || c == '\U{000B}' || c == '\U{000C}' || c == '\r'
    || c == ' ' || c == '\U{00A0}' || c == '\U{1680}'
    || ('\U{2000}' <= c <= '\U{200A}')
    || c == '\U{2028}' || c == '\U{2029}' || c == '\U{202F}' || c == '\U{205F}'
    || c == '\U{3000}' || c == '\U{FEFF}'
  }

  predicate AllTrimmable(s: string) {
    forall k :: 0 <= k < |s| ==> IsTrimmable(s[k])
  }

  /** `s` with its leading trimmable characters removed: what is left is a
      suffix of `s`, everything cut was trimmable, and it starts with a kept character. */
  function TrimStart(s: string): (r: string)
    ensures |r| <= |s| && r == s[|s| - |r|..]
    ensures AllTrimmable(s[..|s| - |r|])
    ensures r != [] ==> !IsTrimmable(r[0])
  {
    if s != [] && IsTrimmable(s[0]) then
      var r := TrimStart(s[1..]);
      assert s[1..][|s| - 1 - |r|..] == s[|s| - |r|..];
      assert forall k :: 1 <= k < |s| - |r| ==> s[k] == s[1..][..|s| - 1 - |r|][k - 1];
      r
    else s
  }

  /** `s` with its trailing trimmable characters removed (the mirror of TrimStart). */
  function TrimEnd(s: string): (r: string)
    ensures |r| <= |s| && r == s[..|r|]
    ensures AllTrimmable(s[|r|..])
    ensures r != [] ==> !IsTrimmable(r[|r| - 1])
  {
    if s != [] && IsTrimmable(s[|s| - 1]) then TrimEnd(s[..|s| - 1]) else s
  }

  /** `String.prototype.trim`. */
  function Trim(s: string): string {
    TrimEnd(TrimStart(s))
  }

  /** What `trim` leaves is a slice of the input with only white space around
      it, and it neither starts nor ends with white space. */
  lemma TrimIsSlice(s: string) returns (i: nat)
    ensures i <= |s| - |Trim(s)| && Trim(s) == s[i..i + |Trim(s)|]
    ensures AllTrimmable(s[..i]) && AllTrimmable(s[i + |Trim(s)|..])
    ensures Trim(s) != [] ==> !IsTrimmable(Trim(s)[0]) && !IsTrimmable(Trim(s)[|Trim(s)| - 1])
  {
    var t := TrimStart(s);
    var r := TrimEnd(t);
    i := |s| - |t|;
    assert s[i..i + |r|] == t[..|r|];
    assert s[i + |r|..] == t[|r|..];
  }

  /** `toUpperCase` of one character, as the string it becomes. Modelled: the
      ASCII letters a-z, and the characters whose full Unicode upper-case
      mapping consists of ASCII letters only (sharp s, dotless i, long s and
      the Latin ligatures U+FB00-U+FB06). Every other character is kept as it
      is; its real upper-case form is never made of ASCII upper-case letters
      alone, so keeping it does not change whether the input matches a code. */
  function UpperOf(c: char): (u: string)
    ensures |u| >= 1
  {
    if 'a' <= c <= 'z' then [(c as int - 32) as char]
    else if c == '\U{00DF}' then "SS"
    else if c == '\U{0131}' then "I"
    else if c == '\U{017F}' then "S"
    else if c == '\U{FB00}' then "FF"
    else if c == '\U{FB01}' then "FI"
    else if c == '\U{FB02}' then "FL"
    else if c == '\U{FB03}' then "FFI"
    else if c == '\U{FB04}' then "FFL"
    else if c == '\U{FB05}' || c == '\U{FB06}' then "ST"
    else [c]
  }

  /** `String.prototype.toUpperCase`, character by character. */
  function ToUpper(s: string): string {
    if s == [] then [] else UpperOf(s[0]) + ToUpper(s[1..])
  }

  /** `(input || "").trim().toUpperCase()`. */
  function Normalize(input: string): string {
    ToUpper(Trim(input))
  }

  /** `PEOPLE.find(p => p.code === code)` on the normalised input: the
      participant whose code is the normalised input, if there is one. */
  function Lookup(input: string): (r: Option<Person>)
    ensures r.Some? <==> IsRosterCode(Normalize(input))
    ensures r.Some? ==> r.value in People && r.value.code == Normalize(input)
  {
    FindInRoster(Normalize(input));
    Find(People, Normalize(input))
  }

  // ---------------------------------------------------------------------
  // Properties of the normalisation

  /** `body` spells `code` with each letter in either case. */
  predicate CaseVariantOf(body: string, code: string) {
    && |body| == |code|
    && forall k :: 0 <= k < |code| ==>
         IsUpperLetter(code[k]) && (body[k] == code[k] || body[k] as int == code[k] as int + 32)
  }

  lemma {:induction false} ToUpperAppend(a: string, b: string)
    ensures ToUpper(a + b) == ToUpper(a) + ToUpper(b)
  {
    if a == [] {
      assert a + b == b;
    } else {
      assert (a + b)[1..] == a[1..] + b;
      ToUpperAppend(a[1..], b);
    }
  }

  /** Upper-casing any case variant of an upper-case word gives the word. */
  lemma {:induction false} ToUpperOfCaseVariant(body: string, code: string)
    requires CaseVariantOf(body, code)
    ensures ToUpper(body) == code
  {
    if body != [] {
      assert CaseVariantOf(body[1..], code[1..]);
      ToUpperOfCaseVariant(body[1..], code[1..]);
      assert UpperOf(body[0]) == [code[0]];
      assert code == [code[0]] + code[1..];
    }
  }

  /** Trimming removes exactly the padding around a body that neither starts
      nor ends with a trimmable character. */
  lemma {:induction false} TrimPadded(pre: string, body: string, post: string)
    requires AllTrimmable(pre) && AllTrimmable(post)
    requires body != [] && !IsTrimmable(body[0]) && !IsTrimmable(body[|body| - 1])
    ensures Trim(pre + body + post) == body
  {
    var rest := body + post;
    assert pre + body + post == pre + rest;
    assert rest[0] == body[0];
    TrimStartPadded(pre, rest);
    TrimEndPadded(body, post);
    calc {
      Trim(pre + body + post);
      TrimEnd(TrimStart(pre + rest));
      TrimEnd(rest);
      body;
    }
  }

  lemma {:induction false} TrimStartPadded(pre: string, rest: string)
    requires AllTrimmable(pre)
    requires rest != [] && !IsTrimmable(rest[0])
    ensures TrimStart(pre + rest) == rest
  {
    if pre != [] {
      assert (pre + rest)[1..] == pre[1..] + rest;
      TrimStartPadded(pre[1..], rest);
    } else {
      assert pre + rest == rest;
    }
  }

  lemma {:induction false} TrimEndPadded(rest: string, post: string)
    requires AllTrimmable(post)
    requires rest != [] && !IsTrimmable(rest[|rest| - 1])
    ensures TrimEnd(rest + post) == rest
  {
    if post != [] {
      var s := rest + post;
      assert s[..|s| - 1] == rest + post[..|post| - 1];
      TrimEndPadded(rest, post[..|post| - 1]);
    } else {
      assert rest + post == rest;
    }
  }

  /** Validation is insensitive to surrounding white space and to letter
      case: the input `pre + body + post`, where `body` spells an upper-case
      word in any mix of cases and `pre`, `post` are white space, normalises
      to that word. */
  lemma NormalizePaddedVariant(pre: string, body: string, post: string, code: string)
    requires AllTrimmable(pre) && AllTrimmable(post)
    requires code != [] && CaseVariantOf(body, code)
    ensures Normalize(pre + body + post) == code
  {
    TrimPadded(pre, body, post);
    ToUpperOfCaseVariant(body, code);
  }

  /** Every roster code is accepted in any case and with any padding. */
  lemma LookupPaddedVariant(k: nat, pre: string, body: string, post: string)
    requires k < |People|
    requires AllTrimmable(pre) && AllTrimmable(post)
    requires CaseVariantOf(body, People[k].code)
    ensures Lookup(pre + body + post) == Some(People[k])
  {
    CodesAreFiveUpperLetters();
    NormalizePaddedVariant(pre, body, post, People[k].code);
    FindAt(k);
  }

  /** "nikhi" selects the NIKHI entry. */
  lemma LowerCaseInputMatches()
    ensures Lookup("nikhi") == Some(People[0])
  {
    var code := People[0].code;
    assert code == "NIKHI";
    assert CaseVariantOf("nikhi", code) by {
      CodesAreFiveUpperLetters();
    }
    assert "" + "nikhi" + "" == "nikhi";
    LookupPaddedVariant(0, "", "nikhi", "");
  }

  /** "NIKHI" selects the NIKHI entry. */
  lemma UpperCaseInputMatches()
    ensures Lookup("NIKHI") == Some(People[0])
  {
    var code := People[0].code;
    assert code == "NIKHI";
    assert CaseVariantOf("NIKHI", code) by {
      CodesAreFiveUpperLetters();
    }
    assert "" + "NIKHI" + "" == "NIKHI";
    LookupPaddedVariant(0, "", "NIKHI", "");
  }

  /** " NIKHI " selects the NIKHI entry. */
  lemma PaddedInputMatches()
    ensures Lookup(" NIKHI ") == Some(People[0])
  {
    var code := People[0].code;
    assert code == "NIKHI";
    assert CaseVariantOf("NIKHI", code) by {
      CodesAreFiveUpperLetters();
    }
    assert AllTrimmable(" ");
    assert " " + "NIKHI" + " " == " NIKHI ";
    LookupPaddedVariant(0, " ", "NIKHI", " ");
  }

  /** Upper-case ASCII letters are left alone by `toUpperCase`. */
  lemma {:induction false} UpperLettersFixed(u: string)
    requires forall k :: 0 <= k < |u| ==> IsUpperLetter(u[k])
    ensures ToUpper(u) == u
  {
    if u != [] {
      assert UpperOf(u[0]) == [u[0]];
      UpperLettersFixed(u[1..]);
      assert u == [u[0]] + u[1..];
    }
  }

  /** A character is either kept by `toUpperCase`, or turned into upper-case ASCII letters. */
  lemma UpperOfCases(c: char)
    ensures UpperOf(c) == [c] || forall k :: 0 <= k < |UpperOf(c)| ==> IsUpperLetter(UpperOf(c)[k])
  {
  }

  /** Each character `toUpperCase` produces is left alone by a second pass. */
  lemma UpperOfIsFixed(c: char)
    ensures ToUpper(UpperOf(c)) == UpperOf(c)
  {
    UpperOfCases(c);
    var u := UpperOf(c);
    if u == [c] {
      assert ToUpper(u) == UpperOf(u[0]) + ToUpper(u[1..]);
      assert u[1..] == [];
    } else {
      UpperLettersFixed(u);
    }
  }

  /** `toUpperCase` is idempotent. */
  lemma {:induction false} ToUpperIdempotent(s: string)
    ensures ToUpper(ToUpper(s)) == ToUpper(s)
  {
    if s != [] {
      ToUpperAppend(UpperOf(s[0]), ToUpper(s[1..]));
      UpperOfIsFixed(s[0]);
      ToUpperIdempotent(s[1..]);
    }
  }

  /** Upper-casing keeps the first and the last character of a non-empty
      string kept by `trim` (no upper-case form is white space). */
  lemma {:induction false} ToUpperKeepsEnds(t: string)
    requires t != [] && !IsTrimmable(t[0]) && !IsTrimmable(t[|t| - 1])
    ensures ToUpper(t) != []
    ensures !IsTrimmable(ToUpper(t)[0]) && !IsTrimmable(ToUpper(t)[|ToUpper(t)| - 1])
  {
    var n := |t|;
    assert t == t[..n - 1] + [t[n - 1]];
    ToUpperAppend(t[..n - 1], [t[n - 1]]);
    var last := UpperOf(t[n - 1]);
    assert ToUpper([t[n - 1]]) == last + ToUpper([]);
    assert ToUpper(t)[|ToUpper(t)| - 1] == last[|last| - 1];
    assert ToUpper(t)[0] == UpperOf(t[0])[0];
    UpperOfKeepsKept(t[0]);
    UpperOfKeepsKept(t[n - 1]);
  }

  /** No upper-case form of a character kept by `trim` contains white space. */
  lemma UpperOfKeepsKept(c: char)
    requires !IsTrimmable(c)
    ensures forall k :: 0 <= k < |UpperOf(c)| ==> !IsTrimmable(UpperOf(c)[k])
  {
  }

  /** Normalising an already normalised code changes nothing, so a code
      that was once accepted is accepted again as it stands. */
  lemma NormalizeIdempotent(input: string)
    ensures Normalize(Normalize(input)) == Normalize(input)
  {
    var t := Trim(input);
    var u := ToUpper(t);
    if t == [] {
      assert u == [];
    } else {
      ToUpperKeepsEnds(t);
      TrimPadded([], u, []);
      assert [] + u + [] == u;
    }
    ToUpperIdempotent(t);
  }
}
