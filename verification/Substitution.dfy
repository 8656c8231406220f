/**
 * The substitution engine underneath `ProductName::descriptor`: a list of
 * (key, value) bindings applied to a format string one after another, each
 * step a full `str::replace` of the key by its value.
 *
 * The second half gives the engine an independent reading. A format string
 * built from plain text without `{` and from `{KEY}` tokens renders, as long
 * as no bound value contains `{`, exactly as if every token had been looked
 * up once in the bindings (first binding wins, unknown tokens stay as they
 * are). When a value does contain `{`, the chain can expand it again at a
 * later step; see `Product.NameIsExpandedByLaterKeys`.
 */
module Substitution {
  import opened Wrappers
  import opened Text

  /** One `(key, value)` pair of the replace chain. */
  datatype Binding = Binding(key: string, value: string)

  /** The replace chain: bindings applied in order, each over the whole string. */
  function ApplyAll(s: string, bindings: seq<Binding>): (r: string)
    ensures (forall k :: 0 <= k < |bindings| ==> bindings[k].key != [] && bindings[k].value == bindings[k].key) ==> r == s
    decreases |bindings|
  {
    if bindings == [] then s
    else
      var b := bindings[0];
      if b.key != [] && b.value == b.key then
        ReplaceSelf(s, b.key);
        ApplyAll(Replace(s, b.key, b.value), bindings[1..])
      else
        ApplyAll(Replace(s, b.key, b.value), bindings[1..])
  }

  /** The value of the first binding for `key`, if any. */
  function Lookup(bindings: seq<Binding>, key: string): (r: Option<string>)
    ensures r.None? <==> forall k :: 0 <= k < |bindings| ==> bindings[k].key != key
    ensures r.Some? ==> exists k :: 0 <= k < |bindings| && bindings[k] == Binding(key, r.value)
  {
    if bindings == [] then None
    else if bindings[0].key == key then Some(bindings[0].value)
    else Lookup(bindings[1..], key)
  }

  /**
   * A placeholder: `{`, then a name in which neither brace occurs, then `}`.
   * Every key of the descriptor catalog has this shape.
   */
  predicate IsToken(t: string) {
    |t| >= 2 && t[0] == '{' && t[|t| - 1] == '}' &&
    '{' !in t[1..|t| - 1] && '}' !in t[1..|t| - 1]
  }

  /** `{name}`. */
  function Braced(name: string): string {
    "{" + name + "}"
  }

  /** A name whose characters all lie between `A` and `_` (upper-case letters and `_` among them) contains no brace. */
  lemma BracedIsToken(name: string)
    requires forall c :: c in name ==> 'A' <= c <= '_'
    ensures IsToken(Braced(name))
  {
    assert Braced(name)[1..|Braced(name)| - 1] == name;
  }

  predicate KeysAreTokens(bindings: seq<Binding>) {
    forall k :: 0 <= k < |bindings| ==> IsToken(bindings[k].key)
  }

  // ---------------------------------------------------------------------
  // Templates: a format string seen as text pieces and tokens
  // ---------------------------------------------------------------------

  datatype Piece = Plain(text: string) | Token(key: string)

  predicate PieceOk(p: Piece) {
    match p
    case Plain(s) => '{' !in s
    case Token(k) => IsToken(k)
  }

  predicate TemplateOk(ps: seq<Piece>) {
    forall k :: 0 <= k < |ps| ==> PieceOk(ps[k])
  }

  /** Every binding whose key occurs as a token of `ps` has a value free of `{`. */
  predicate UsedValuesBraceFree(ps: seq<Piece>, bindings: seq<Binding>) {
    forall k :: 0 <= k < |bindings| && Token(bindings[k].key) in ps ==> '{' !in bindings[k].value
  }

  function Show(p: Piece): string {
    match p
    case Plain(s) => s
    case Token(k) => k
  }

  /** The format string a template spells. */
  function Flatten(ps: seq<Piece>): string {
    if ps == [] then "" else Show(ps[0]) + Flatten(ps[1..])
  }

  /** One piece after a single lookup: known tokens become their value. */
  function Resolve(p: Piece, bindings: seq<Binding>): string {
    match p
    case Plain(s) => s
    case Token(k) => Lookup(bindings, k).GetOr(k)
  }

  /** The single-pass reading: every piece resolved once, then concatenated. */
  function RenderTemplate(ps: seq<Piece>, bindings: seq<Binding>): string {
    if ps == [] then "" else Resolve(ps[0], bindings) + RenderTemplate(ps[1..], bindings)
  }

  /** One piece after a replace step of `key` by `value`. */
  function SubstitutePiece(p: Piece, key: string, value: string): Piece {
    if p == Token(key) then Plain(value) else p
  }

  /** The template after one replace step of `key` by `value`. */
  function SubstitutePieces(ps: seq<Piece>, key: string, value: string): (r: seq<Piece>)
    ensures |r| == |ps|
  {
    if ps == [] then [] else [SubstitutePiece(ps[0], key, value)] + SubstitutePieces(ps[1..], key, value)
  }

  /** No occurrence of a token starts inside a brace-free text. */
  lemma TextHasNoTokenStart(s: string, rest: string, key: string, i: int)
    requires '{' !in s && IsToken(key) && 0 <= i < |s|
    ensures !OccursAt(s + rest, key, i)
  {
  }

  /** A token is followed by the rest, and a different token cannot start inside it. */
  lemma TokenHasNoOtherTokenStart(t: string, rest: string, key: string, i: int)
    requires IsToken(t) && IsToken(key) && t != key && 0 <= i < |t|
    ensures !OccursAt(t + rest, key, i)
  {
    var s := t + rest;
    if i + |key| <= |s| {
      var m := s[i..i + |key|];
      if i == 0 {
        if |key| < |t| {
          // `key` closes where `t` still has a name character.
          var j := |key| - 1;
          assert t[1..|t| - 1][j - 1] == t[j];
          assert m[j] == t[j] != key[j];
        } else if |key| == |t| {
          assert m == t;
        } else {
          // `t` closes where `key` still has a name character.
          var j := |t| - 1;
          assert key[1..|key| - 1][j - 1] == key[j];
          assert m[j] == t[j] != key[j];
        }
      } else {
        assert m[0] == t[i];
        if i < |t| - 1 {
          assert t[1..|t| - 1][i - 1] == t[i];
        }
        assert m[0] != key[0];
      }
    }
  }

  /** A replace step passes over one piece, replacing it when it is the key. */
  lemma ReplacePiece(p: Piece, rest: string, key: string, value: string)
    requires PieceOk(p) && IsToken(key)
    ensures Replace(Show(p) + rest, key, value) == Show(SubstitutePiece(p, key, value)) + Replace(rest, key, value)
  {
    match p
    case Plain(s) =>
      forall i | 0 <= i < |s| ensures !OccursAt(s + rest, key, i) {
        TextHasNoTokenStart(s, rest, key, i);
      }
      ReplaceSkip(s, rest, key, value);
    case Token(t) =>
      if t == key {
        var none: string := [];
        ReplaceLeftmost(none, rest, key, value);
        assert none + key + rest == key + rest;
        assert none + value == value;
      } else {
        forall i | 0 <= i < |t| ensures !OccursAt(t + rest, key, i) {
          TokenHasNoOtherTokenStart(t, rest, key, i);
        }
        ReplaceSkip(t, rest, key, value);
      }
  }

  /** One replace step over a template is `SubstitutePieces`. */
  lemma {:induction false} ReplaceOverTemplate(ps: seq<Piece>, key: string, value: string)
    requires TemplateOk(ps) && IsToken(key)
    ensures Replace(Flatten(ps), key, value) == Flatten(SubstitutePieces(ps, key, value))
  {
    if ps == [] {
      assert Flatten(ps) == "";
    } else {
      assert TemplateOk(ps[1..]) by {
        assert forall k :: 0 <= k < |ps[1..]| ==> ps[1..][k] == ps[k + 1];
      }
      ReplaceOverTemplate(ps[1..], key, value);
      assert PieceOk(ps[0]);
      ReplacePiece(ps[0], Flatten(ps[1..]), key, value);
    }
  }

  /** A replace step by a brace-free value keeps the template well formed. */
  lemma SubstitutePiecesOk(ps: seq<Piece>, key: string, value: string)
    requires TemplateOk(ps) && '{' !in value
    ensures TemplateOk(SubstitutePieces(ps, key, value))
    ensures forall k :: 0 <= k < |ps| ==>
              SubstitutePieces(ps, key, value)[k] == SubstitutePiece(ps[k], key, value)
  {
    if ps != [] {
      SubstitutePiecesOk(ps[1..], key, value);
    }
  }

  /** After resolving `key` to `value`, the rest of the bindings finish the job. */
  lemma {:induction false} RenderAfterSubstitute(ps: seq<Piece>, b: Binding, rest: seq<Binding>)
    ensures RenderTemplate(SubstitutePieces(ps, b.key, b.value), rest) == RenderTemplate(ps, [b] + rest)
  {
    if ps != [] {
      RenderAfterSubstitute(ps[1..], b, rest);
      assert ([b] + rest)[1..] == rest;
    }
  }

  /** A replace step whose key is not a token of the template changes nothing. */
  lemma {:induction false} SubstituteAbsent(ps: seq<Piece>, key: string, value: string)
    requires Token(key) !in ps
    ensures SubstitutePieces(ps, key, value) == ps
  {
    if ps != [] {
      assert ps[0] in ps;
      assert forall x :: x in ps[1..] ==> x in ps;
      SubstituteAbsent(ps[1..], key, value);
      assert ps == [ps[0]] + ps[1..];
    }
  }

  /** A replace step adds no token to the template. */
  lemma {:induction false} SubstituteKeepsTokens(ps: seq<Piece>, key: string, value: string, t: string)
    requires Token(t) in SubstitutePieces(ps, key, value)
    ensures Token(t) in ps
  {
    var qs := SubstitutePieces(ps, key, value);
    assert ps != [];
    assert qs == [SubstitutePiece(ps[0], key, value)] + SubstitutePieces(ps[1..], key, value);
    if qs[0] == Token(t) {
      assert ps[0] == Token(t);
    } else {
      assert Token(t) in SubstitutePieces(ps[1..], key, value);
      SubstituteKeepsTokens(ps[1..], key, value, t);
      assert forall x :: x in ps[1..] ==> x in ps;
    }
  }

  /**
   * The replace chain over a well-formed template, with keys that are tokens,
   * is the single-pass lookup of every token, as long as every value that the
   * template asks for is free of `{`. Values of keys that do not occur in the
   * template may be anything: they never enter the string.
   */
  lemma {:induction false} ApplyAllIsLookup(ps: seq<Piece>, bindings: seq<Binding>)
    requires TemplateOk(ps) && KeysAreTokens(bindings) && UsedValuesBraceFree(ps, bindings)
    ensures ApplyAll(Flatten(ps), bindings) == RenderTemplate(ps, bindings)
    decreases |bindings|
  {
    if bindings == [] {
      RenderNoBindings(ps);
    } else {
      var b := bindings[0];
      var rest := bindings[1..];
      var ps' := SubstitutePieces(ps, b.key, b.value);
      ReplaceOverTemplate(ps, b.key, b.value);
      if Token(b.key) in ps {
        SubstitutePiecesOk(ps, b.key, b.value);
      } else {
        SubstituteAbsent(ps, b.key, b.value);
      }
      forall k | 0 <= k < |rest| && Token(rest[k].key) in ps'
        ensures '{' !in rest[k].value
      {
        SubstituteKeepsTokens(ps, b.key, b.value, rest[k].key);
        assert rest[k] == bindings[k + 1];
      }
      assert KeysAreTokens(rest) by {
        assert forall k :: 0 <= k < |rest| ==> rest[k] == bindings[k + 1];
      }
      ApplyAllIsLookup(ps', rest);
      RenderAfterSubstitute(ps, b, rest);
      assert [b] + rest == bindings;
    }
  }

  /** With no bindings the single-pass reading gives the format back. */
  lemma {:induction false} RenderNoBindings(ps: seq<Piece>)
    ensures RenderTemplate(ps, []) == Flatten(ps)
  {
    if ps != [] {
      RenderNoBindings(ps[1..]);
    }
  }

  /** A chain none of whose keys occurs in the string leaves it unchanged. */
  lemma {:induction false} ApplyAllNoKeys(s: string, bindings: seq<Binding>)
    requires forall k :: 0 <= k < |bindings| ==> bindings[k].key != [] && !Contains(s, bindings[k].key)
    ensures ApplyAll(s, bindings) == s
    decreases |bindings|
  {
    if bindings != [] {
      ReplaceAbsent(s, bindings[0].key, bindings[0].value);
      ApplyAllNoKeys(s, bindings[1..]);
    }
  }

  /** A string without `{` contains no token. */
  lemma BraceFreeHasNoToken(s: string, key: string)
    requires '{' !in s && IsToken(key)
    ensures !Contains(s, key)
  {
  }

  /** A chain of token keys leaves a string without `{` unchanged. */
  lemma ApplyAllBraceFree(s: string, bindings: seq<Binding>)
    requires '{' !in s && KeysAreTokens(bindings)
    ensures ApplyAll(s, bindings) == s
  {
    forall k | 0 <= k < |bindings|
      ensures bindings[k].key != [] && !Contains(s, bindings[k].key)
    {
      BraceFreeHasNoToken(s, bindings[k].key);
    }
    ApplyAllNoKeys(s, bindings);
  }

  /** The bindings after the first one for `key`: the steps a value put in for `key` still goes through. */
  function After(bindings: seq<Binding>, key: string): (r: seq<Binding>)
    ensures |r| <= |bindings| && r == bindings[|bindings| - |r|..]
  {
    if bindings == [] then []
    else if bindings[0].key == key then bindings[1..]
    else
      var r := After(bindings[1..], key);
      assert bindings[1..][|bindings[1..]| - |r|..] == bindings[|bindings| - |r|..];
      r
  }

  /** A suffix of a chain of token keys is a chain of token keys. */
  lemma SuffixKeysAreTokens(bindings: seq<Binding>, n: nat)
    requires KeysAreTokens(bindings) && n <= |bindings|
    ensures KeysAreTokens(bindings[n..])
  {
    assert forall k :: 0 <= k < |bindings[n..]| ==> bindings[n..][k] == bindings[k + n];
  }

  /**
   * A format that is one token stays as it is when no binding has that key;
   * otherwise it becomes the value of the first binding for it, which then goes
   * through the steps after that binding. Values of other keys never enter.
   */
  lemma {:induction false} ApplyAllToken(t: string, bindings: seq<Binding>)
    requires IsToken(t) && KeysAreTokens(bindings)
    ensures Lookup(bindings, t).None? ==> ApplyAll(t, bindings) == t
    ensures Lookup(bindings, t).Some? ==>
              ApplyAll(t, bindings) == ApplyAll(Lookup(bindings, t).value, After(bindings, t))
    decreases |bindings|
  {
    if bindings != [] {
      var b := bindings[0];
      var ps := [Token(t)];
      assert Flatten(ps) == t by {
        assert Flatten(ps[1..]) == "";
      }
      ReplaceOverTemplate(ps, b.key, b.value);
      var ps' := SubstitutePieces(ps, b.key, b.value);
      assert Flatten(ps') == (if t == b.key then b.value else t) by {
        assert ps'[1..] == [];
        assert Flatten(ps'[1..]) == "";
      }
      SuffixKeysAreTokens(bindings, 1);
      if t != b.key {
        ApplyAllToken(t, bindings[1..]);
      }
    }
  }

  /** When the value found is free of `{`, a lone token becomes exactly that value. */
  lemma ApplyAllTokenOnce(t: string, bindings: seq<Binding>)
    requires IsToken(t) && KeysAreTokens(bindings)
    requires Lookup(bindings, t).Some? ==> '{' !in Lookup(bindings, t).value
    ensures ApplyAll(t, bindings) == Lookup(bindings, t).GetOr(t)
  {
    ApplyAllToken(t, bindings);
    if Lookup(bindings, t).Some? {
      var rest := After(bindings, t);
      SuffixKeysAreTokens(bindings, |bindings| - |rest|);
      ApplyAllBraceFree(Lookup(bindings, t).value, rest);
    }
  }

  /**
   * An occurrence of a token that starts before a token `t` ends before it:
   * it cannot run into `t`, whose leading `{` no token has inside it.
   */
  lemma NoStraddle(a: string, t: string, b: string, key: string, i: int)
    requires IsToken(t) && IsToken(key) && 0 <= i < |a|
    ensures OccursAt(a + t + b, key, i) ==> i + |key| <= |a|
  {
    var s := a + t + b;
    if |a| < i + |key| <= |s| {
      var j := |a| - i;
      assert s[i..i + |key|][j] == s[|a|] == t[0] == '{';
      if j < |key| - 1 {
        assert key[1..|key| - 1][j - 1] == key[j];
      }
      assert s[i..i + |key|][j] != key[j];
    }
  }

  /** A token other than the key is copied through, and the scan goes on after it. */
  lemma ReplaceFromToken(t: string, b: string, key: string, value: string)
    requires IsToken(t) && IsToken(key) && t != key
    ensures Replace(t + b, key, value) == t + Replace(b, key, value)
  {
    forall i | 0 <= i < |t| ensures !OccursAt(t + b, key, i) {
      TokenHasNoOtherTokenStart(t, b, key, i);
    }
    ReplaceSkip(t, b, key, value);
  }

  /** Where the key occurs at the start of `a + t + b`, it occurs at the start of `a` and is replaced there. */
  lemma ReplaceMatchBeforeToken(a: string, t: string, b: string, key: string, value: string)
    requires IsToken(t) && IsToken(key) && a != [] && OccursAt(a + t + b, key, 0)
    ensures |key| <= |a|
    ensures Replace(a + t + b, key, value) == value + Replace(a[|key|..] + t + b, key, value)
    ensures Replace(a, key, value) == value + Replace(a[|key|..], key, value)
  {
    var s := a + t + b;
    NoStraddle(a, t, b, key, 0);
    assert s[..|key|] == key;
    assert s[|key|..] == a[|key|..] + t + b;
    assert a[..|key|] == s[..|key|];
  }

  /** Where the key does not occur at the start of `a + t + b`, the first character of `a` is copied. */
  lemma ReplaceCopyBeforeToken(a: string, t: string, b: string, key: string, value: string)
    requires IsToken(key) && a != [] && !OccursAt(a + t + b, key, 0)
    ensures Replace(a + t + b, key, value) == [a[0]] + Replace(a[1..] + t + b, key, value)
    ensures Replace(a, key, value) == [a[0]] + Replace(a[1..], key, value)
  {
    var s := a + t + b;
    ReplaceNoMatchHere(s, key, value);
    assert s[1..] == a[1..] + t + b;
    if |key| <= |a| {
      assert a[..|key|] == s[..|key|];
    }
    ReplaceNoMatchHere(a, key, value);
  }

  /** Concatenation regrouped: `x` put in front of `y + t + z`. */
  lemma Regroup(x: string, y: string, t: string, z: string)
    ensures x + (y + t + z) == (x + y) + t + z
  {
  }

  /**
   * A replace step whose key is a token other than the token `t` works on the
   * text on each side of `t` separately and leaves `t` itself alone.
   */
  lemma {:induction false} ReplaceAroundToken(a: string, t: string, b: string, key: string, value: string)
    requires IsToken(t) && IsToken(key) && t != key
    ensures Replace(a + t + b, key, value) == Replace(a, key, value) + t + Replace(b, key, value)
    decreases |a|
  {
    if a == [] {
      assert a + t + b == t + b;
      assert Replace(a, key, value) == [];
      ReplaceFromToken(t, b, key, value);
    } else if OccursAt(a + t + b, key, 0) {
      ReplaceMatchBeforeToken(a, t, b, key, value);
      var a' := a[|key|..];
      ReplaceAroundToken(a', t, b, key, value);
      Regroup(value, Replace(a', key, value), t, Replace(b, key, value));
    } else {
      ReplaceCopyBeforeToken(a, t, b, key, value);
      var a' := a[1..];
      ReplaceAroundToken(a', t, b, key, value);
      Regroup([a[0]], Replace(a', key, value), t, Replace(b, key, value));
    }
  }

  /**
   * A chain of token keys none of which is the token `t` renders the text on
   * each side of `t` on its own and leaves `t` where it stands.
   */
  lemma {:induction false} ApplyAllAroundToken(a: string, t: string, b: string, bindings: seq<Binding>)
    requires IsToken(t) && KeysAreTokens(bindings)
    requires forall k :: 0 <= k < |bindings| ==> bindings[k].key != t
    ensures ApplyAll(a + t + b, bindings) == ApplyAll(a, bindings) + t + ApplyAll(b, bindings)
    decreases |bindings|
  {
    if bindings != [] {
      var bd := bindings[0];
      ReplaceAroundToken(a, t, b, bd.key, bd.value);
      SuffixKeysAreTokens(bindings, 1);
      ApplyAllAroundToken(Replace(a, bd.key, bd.value), t, Replace(b, bd.key, bd.value), bindings[1..]);
    }
  }
}
