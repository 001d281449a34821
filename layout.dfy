/** app/dashboard/layout.jsx:60-61: the store name shown in the sidebar and the two
    initials drawn in its avatar. */
module Layout {
  import opened Wrappers
  import opened Text

  /** `data.storeName || 'My Store'`: a missing or empty name falls back to the default. */
  function StoreName(storeName: Option<string>): (name: string)
    ensures name != ""
    ensures storeName.Some? && storeName.value != "" ==> name == storeName.value
  {
    if storeName.Some? && storeName.value != "" then storeName.value else "My Store"
  }

  /** `words.map(word => word[0]).join('')`: the first character of every word; an
      empty word gives `undefined`, which joins as the empty string. */
  function Heads(words: seq<string>): string
    decreases |words|
  {
    if words == [] then [] else (if words[0] == [] then [] else [words[0][0]]) + Heads(words[1..])
  }

  /** `name.split(' ').map(word => word[0]).join('').toUpperCase().slice(0, 2)`. */
  function Initials(name: string): string {
    var all := Upper(Heads(SplitOn(name, ' ')));
    if |all| <= 2 then all else all[..2]
  }

  /** The reference reading: the characters of `s` that are not spaces and follow a
      space or the start (`atStart`), in order. */
  function WordStarts(s: string, atStart: bool): string
    decreases |s|
  {
    if s == [] then []
    else if s[0] == ' ' then WordStarts(s[1..], true)
    else (if atStart then [s[0]] else []) + WordStarts(s[1..], false)
  }

  /** Inside a word, nothing is collected until the next space. */
  lemma {:induction false} WordStartsInsideWord(s: string, i: nat)
    requires i <= |s| && ' ' !in s[..i]
    ensures WordStarts(s, false) == WordStarts(s[i..], false)
    decreases i
  {
    if i > 0 {
      assert s[0] != ' ' by { assert s[..i][0] == s[0]; }
      assert s[1..][..i - 1] == s[1..i];
      WordStartsInsideWord(s[1..], i - 1);
      assert s[1..][i - 1..] == s[i..];
    }
  }

  /** Splitting on single spaces and taking each word's first character finds exactly
      the word starts, so runs of spaces contribute nothing. */
  lemma {:induction false} HeadsAreWordStarts(s: string)
    ensures Heads(SplitOn(s, ' ')) == WordStarts(s, true)
    decreases |s|
  {
    if ' ' !in s {
      assert SplitOn(s, ' ') == [s];
      if s != [] {
        WordStartsInsideWord(s[1..], |s| - 1);
        assert s[1..][..|s| - 1] == s[1..];
        assert s[1..][|s| - 1..] == [];
      }
    } else {
      var i := IndexOf(s, ' ');
      var words := SplitOn(s, ' ');
      assert words == [s[..i]] + SplitOn(s[i + 1..], ' ');
      assert words[1..] == SplitOn(s[i + 1..], ' ');
      HeadsAreWordStarts(s[i + 1..]);
      if i > 0 {
        assert s[..i][0] == s[0];
        assert s[1..][..i - 1] == s[1..i] && s[1..i] == s[..i][1..];
        WordStartsInsideWord(s[1..], i - 1);
        assert s[1..][i - 1..] == s[i..];
        assert s[i..][1..] == s[i + 1..];
      }
    }
  }

  /** The avatar shows at most two characters: the uppercased first characters of
      the first two words. */
  lemma InitialsAreFirstWordStarts(name: string)
    ensures |Initials(name)| <= 2
    ensures var starts := Upper(WordStarts(name, true));
      Initials(name) == if |starts| <= 2 then starts else starts[..2]
  {
    HeadsAreWordStarts(name);
  }

  /** The default name gives "MS", the avatar's initial state. */
  lemma DefaultInitials()
    ensures StoreName(None) == "My Store"
    ensures Initials(StoreName(None)) == "MS"
  {
    var s := "My Store";
    assert ' ' in s && IndexOf(s, ' ') == 2 by { assert s[2] == ' ' && s[..2] == "My"; }
    assert s[..2] == "My" && s[3..] == "Store";
    assert ' ' !in "Store";
    assert SplitOn(s, ' ') == ["My", "Store"];
    assert Heads(["My", "Store"]) == "MS";
  }
}
