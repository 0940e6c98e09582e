/**
 * The data shapes the session engine consumes: a learning session and its
 * words, as produced by the generation service or pasted as JSON. Only the
 * fields the navigation core reads are kept. Also JavaScript's notion of a
 * "truthy" optional string and `String.prototype.trim`, which the engine's
 * guards rely on.
 */
module Content {

  datatype Option<+T> = None | Some(value: T)

  /** One entry of a word's `nativeContexts` list (`label` is spelled `labelText`, `label` being a Dafny keyword). */
  datatype NativeContext = NativeContext(
    labelText: string,
    description: string,
    sentence: string,
    significance: string)

  /** A vocabulary item (the fields of `WordData` that the core reads). */
  datatype WordData = WordData(
    word: string,
    fontVibe: string,
    visualPrompt: string,
    imageUrl: Option<string>,
    nativeContexts: seq<NativeContext>)

  /** A generated or imported session: a topic, a paragraph and its words. */
  datatype LearningSession = LearningSession(
    topic: string,
    fullText: string,
    words: seq<WordData>)

  /** JavaScript truthiness of a `string | null | undefined` value. */
  predicate Truthy(s: Option<string>) {
    s.Some? && s.value != ""
  }

  /**
   * The characters `String.prototype.trim` strips: ECMAScript WhiteSpace
   * (tab, vertical tab, form feed, space, no-break space, byte order mark and
   * the Unicode space separators) and LineTerminator (LF, CR, U+2028, U+2029).
   */
  predicate IsTrimmable(c: char) {
    || c in {'\t', '\n', '\U{000B}', '\U{000C}', '\r', ' ', '\U{00A0}', '\U{1680}',
             '\U{2028}', '\U{2029}', '\U{202F}', '\U{205F}', '\U{3000}', '\U{FEFF}'}
    || ('\U{2000}' <= c <= '\U{200A}')
  }

  function TrimStart(s: string): string {
    if s != [] && IsTrimmable(s[0]) then TrimStart(s[1..]) else s
  }

  function TrimEnd(s: string): string {
    if s != [] && IsTrimmable(s[|s| - 1]) then TrimEnd(s[..|s| - 1]) else s
  }

  /** `s.trim()`. */
  function Trim(s: string): string {
    TrimEnd(TrimStart(s))
  }

  /** Some character of `s` survives trimming. */
  ghost predicate HasContent(s: string) {
    exists i :: 0 <= i < |s| && !IsTrimmable(s[i])
  }

  lemma {:induction false} TrimStartEmpty(s: string)
    ensures TrimStart(s) == [] <==> !HasContent(s)
    ensures TrimStart(s) != [] ==> !IsTrimmable(TrimStart(s)[0])
  {
    if s != [] && IsTrimmable(s[0]) {
      TrimStartEmpty(s[1..]);
      if HasContent(s) {
        var i :| 0 <= i < |s| && !IsTrimmable(s[i]);
        assert !IsTrimmable(s[1..][i - 1]);
      }
      if HasContent(s[1..]) {
        var i :| 0 <= i < |s[1..]| && !IsTrimmable(s[1..][i]);
        assert !IsTrimmable(s[i + 1]);
      }
    } else if s != [] {
      assert !IsTrimmable(s[0]);
    }
  }

  lemma {:induction false} TrimEndKeepsHead(s: string)
    requires s != [] && !IsTrimmable(s[0])
    ensures TrimEnd(s) != [] && TrimEnd(s)[0] == s[0]
  {
    if IsTrimmable(s[|s| - 1]) {
      TrimEndKeepsHead(s[..|s| - 1]);
    }
  }

  /** `s.trim()` is the empty string exactly when every character of `s` is trimmable. */
  lemma TrimEmptyIffBlank(s: string)
    ensures Trim(s) == [] <==> !HasContent(s)
  {
    TrimStartEmpty(s);
    if TrimStart(s) != [] {
      TrimEndKeepsHead(TrimStart(s));
    }
  }
}
