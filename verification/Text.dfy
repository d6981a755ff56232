/** The handful of Go `strings` operations the operator's text code relies on. */
module Text {

  datatype Option<+T> = None | Some(value: T)

  /** `strings.ToLower`, for the ASCII letters that host names are made of. */
  function LowerChar(c: char): (r: char) {
    if 'A' <= c <= 'Z' then c - 'A' + 'a' else c
  }

  function ToLower(s: string): (r: string)
    ensures |r| == |s|
  {
    seq(|s|, i requires 0 <= i < |s| => LowerChar(s[i]))
  }

  /** `r` is `s` with every capital letter replaced by its small one, and nothing else changed. */
  ghost predicate Lowered(s: string, r: string) {
    && |r| == |s|
    && forall i | 0 <= i < |s| ::
         && !('A' <= r[i] <= 'Z')
         && if 'A' <= s[i] <= 'Z' then r[i] as int == s[i] as int + 32 else r[i] == s[i]
  }

  lemma ToLowerLowers(s: string)
    ensures Lowered(s, ToLower(s)) && forall r | Lowered(s, r) :: r == ToLower(s)
  {
    forall r | Lowered(s, r)
      ensures r == ToLower(s)
    {
      assert forall i | 0 <= i < |s| :: r[i] == ToLower(s)[i];
    }
  }

  predicate HasPrefix(s: string, prefix: string) {
    prefix <= s
  }

  predicate OccursAt(s: string, text: string, i: nat) {
    i + |text| <= |s| && s[i..i + |text|] == text
  }

  /** `strings.Contains`. */
  predicate ContainsText(s: string, text: string) {
    exists i: nat | i <= |s| :: OccursAt(s, text, i)
  }

  lemma OccursBetween(before: string, text: string, after: string)
    ensures ContainsText(before + text + after, text)
  {
    assert OccursAt(before + text + after, text, |before|);
  }

  /** A text that holds `long` holds every prefix of it. */
  lemma ContainsPrefix(s: string, long: string, short: string)
    requires ContainsText(s, long) && short <= long
    ensures ContainsText(s, short)
  {
    var i: nat :| i <= |s| && OccursAt(s, long, i);
    assert s[i..i + |long|][..|short|] == s[i..i + |short|];
    assert OccursAt(s, short, i);
  }

  /** A text held by a prefix of `s` is held by `s`. */
  lemma ContainedInPrefix(s: string, part: string, text: string)
    requires part <= s && ContainsText(part, text)
    ensures ContainsText(s, text)
  {
    var i: nat :| i <= |part| && OccursAt(part, text, i);
    assert part[i..i + |text|] == s[i..i + |text|];
    assert OccursAt(s, text, i);
  }

  /** The text in front of the first `=`, or all of it when there is none. */
  function BeforeEquals(s: string): (r: string)
    ensures r <= s && '=' !in r
    ensures if '=' in s then |r| < |s| && s[|r|] == '=' else r == s
  {
    if s == "" || s[0] == '=' then "" else [s[0]] + BeforeEquals(s[1..])
  }

  /** The text behind the first `=`. */
  function AfterEquals(s: string): (r: string)
    ensures '=' in s ==> s == BeforeEquals(s) + "=" + r
  {
    if '=' in s then s[|BeforeEquals(s)| + 1..] else ""
  }

  /** The first `=` is where any `=`-free text followed by `=` says it is. */
  lemma {:induction false} EqualsIsUnique(key: string, rest: string)
    requires '=' !in key
    ensures BeforeEquals(key + "=" + rest) == key && AfterEquals(key + "=" + rest) == rest
  {
    var s := key + "=" + rest;
    assert s[|key|] == '=';
    if key == "" {
      assert s[1..] == rest;
    } else {
      assert s[1..] == key[1..] + "=" + rest;
      EqualsIsUnique(key[1..], rest);
      assert s == key + "=" + AfterEquals(s);
      assert s[|key| + 1..] == rest;
    }
  }

  /** `unicode.IsSpace`. */
  predicate IsSpace(c: char) {
    || '\t' <= c <= '\r' || c == ' ' || c == '\U{85}' || c == '\U{A0}' || c == '\U{1680}'
    || '\U{2000}' <= c <= '\U{200A}' || c == '\U{2028}' || c == '\U{2029}' || c == '\U{202F}'
    || c == '\U{205F}' || c == '\U{3000}'
  }

  /** The 25 characters with the Unicode property White_Space. */
  lemma WhiteSpace(c: char)
    ensures IsSpace(c) <==>
              c in ['\U{9}', '\U{A}', '\U{B}', '\U{C}', '\U{D}', '\U{20}', '\U{85}', '\U{A0}', '\U{1680}',
                    '\U{2000}', '\U{2001}', '\U{2002}', '\U{2003}', '\U{2004}', '\U{2005}', '\U{2006}', '\U{2007}',
                    '\U{2008}', '\U{2009}', '\U{200A}', '\U{2028}', '\U{2029}', '\U{202F}', '\U{205F}', '\U{3000}']
  {
  }

  function TrimLeft(s: string): (r: string)
    ensures r == "" || !IsSpace(r[0])
    ensures |r| <= |s| && r == s[|s| - |r|..]
  {
    if s != "" && IsSpace(s[0]) then TrimLeft(s[1..]) else s
  }

  function TrimRight(s: string): (r: string)
    ensures r <= s && (r == "" || !IsSpace(r[|r| - 1]))
  {
    if s != "" && IsSpace(s[|s| - 1]) then TrimRight(s[..|s| - 1]) else s
  }

  /** `strings.TrimSpace`. */
  function TrimSpace(s: string): (r: string) {
    TrimRight(TrimLeft(s))
  }

  predicate IsTrimmed(s: string) {
    s == "" || (!IsSpace(s[0]) && !IsSpace(s[|s| - 1]))
  }

  lemma {:induction false} TrimLeftSkips(lead: string, s: string)
    requires (forall c | c in lead :: IsSpace(c)) && (s == "" || !IsSpace(s[0]))
    ensures TrimLeft(lead + s) == s
  {
    if lead == "" {
      assert lead + s == s;
    } else {
      assert (lead + s)[1..] == lead[1..] + s && lead[0] in lead;
      TrimLeftSkips(lead[1..], s);
    }
  }

  lemma {:induction false} TrimRightSkips(s: string, trail: string)
    requires (forall c | c in trail :: IsSpace(c)) && (s == "" || !IsSpace(s[|s| - 1]))
    ensures TrimRight(s + trail) == s
  {
    if trail == "" {
      assert s + trail == s;
    } else {
      var init, last := trail[..|trail| - 1], trail[|trail| - 1];
      assert (s + trail)[..|s + trail| - 1] == s + init && last in trail;
      TrimRightSkips(s, init);
    }
  }

  /** Trimming takes away the white space around a text and nothing of the text. */
  lemma TrimSpaceUndoesPadding(lead: string, text: string, trail: string)
    requires IsTrimmed(text) && forall c | c in lead + trail :: IsSpace(c)
    ensures TrimSpace(lead + text + trail) == text
  {
    hide IsSpace;
    assert forall c | c in lead :: c in lead + trail;
    assert forall c | c in trail :: c in lead + trail;
    if text == "" {
      assert lead + text + trail == lead + trail + "";
      TrimLeftSkips(lead + trail, "");
    } else {
      assert lead + text + trail == lead + (text + trail);
      TrimLeftSkips(lead, text + trail);
      TrimRightSkips(text, trail);
    }
  }

  /** `strings.Fields`, reading left to right; `word` is the field being read. */
  function FieldsFrom(s: string, word: string): seq<string> {
    var flushed := if word == "" then [] else [word];
    if s == "" then flushed
    else if IsSpace(s[0]) then flushed + FieldsFrom(s[1..], "")
    else FieldsFrom(s[1..], word + [s[0]])
  }

  function Fields(s: string): seq<string> {
    FieldsFrom(s, "")
  }
}
