/**
  Per-user language and message templates, from src/core/i18n.js. The
  language preferences are the `userLang` object, here a map the class
  reassigns; reading and writing `lang.json` is left out.
*/
module I18n {
  type UserId = string

  /** The English pack. */
  function En(): map<string, string> {
    map[
      "win" := "\U{1F389} You win!",
      "lose" := "\U{1F480} You lose.",
      "tie" := "\U{1F91D} It’s a tie!",
      "you_chose" := "You chose **{choice}**",
      "bot_chose" := "I chose **{choice}**",
      "bet_line" := "\nBet: **{bet}** | New balance: **{bal}**",
      "rps_invalid" := "Choose rock, paper, or scissors.",
      "rock" := "Rock",
      "paper" := "Paper",
      "scissors" := "Scissors"
    ]
  }

  /** The Japanese pack. */
  function Ja(): map<string, string> {
    map[
      "win" := "\U{1F389} あなたの勝ち！",
      "lose" := "\U{1F480} あなたの負け！",
      "tie" := "\U{1F91D} あいこです！",
      "you_chose" := "あなたの手：**{choice}**",
      "bot_chose" := "わたしの手：**{choice}**",
      "bet_line" := "\nベット：**{bet}**｜新残高：**{bal}**",
      "rps_invalid" := "グー・チョキ・パーのいずれかを選んでください。",
      "rock" := "グー",
      "paper" := "パー",
      "scissors" := "チョキ"
    ]
  }

  /** The keys both packs define. */
  const Keys: set<string> := {"win", "lose", "tie", "you_chose", "bot_chose", "bet_line", "rps_invalid", "rock", "paper", "scissors"}

  /** The English and Japanese packs define the same keys, and no template is empty. */
  lemma PacksAgree()
    ensures En().Keys == Keys && Ja().Keys == Keys
    ensures forall k :: k in Keys ==> En()[k] != "" && Ja()[k] != ""
  {
  }

  predicate Supported(lang: string) { lang == "en" || lang == "ja" }

  /** `userLang[u] || "en"`. */
  function LangOf(userLang: map<UserId, string>, u: UserId): (l: string)
    ensures l != ""
    ensures u in userLang && userLang[u] != "" ==> l == userLang[u]
    ensures u !in userLang ==> l == "en"
  {
    if u in userLang && userLang[u] != "" then userLang[u] else "en"
  }

  /** The preferences after `setUserLang(u, lang)`: only "en" and "ja" are recorded. */
  function Assign(userLang: map<UserId, string>, u: UserId, lang: string): map<UserId, string> {
    if Supported(lang) then userLang[u := lang] else userLang
  }

  /** After `setUserLang(u, lang)` the user's language is lang if supported, what it was otherwise; other users keep theirs. */
  lemma SetThenGet(userLang: map<UserId, string>, u: UserId, lang: string, v: UserId)
    ensures LangOf(Assign(userLang, u, lang), u) == if Supported(lang) then lang else LangOf(userLang, u)
    ensures v != u ==> LangOf(Assign(userLang, u, lang), v) == LangOf(userLang, v)
  {
  }

  /** `dict[lang] || dict.en`. */
  function Pack(lang: string): map<string, string> {
    if lang == "ja" then Ja() else En()
  }

  /** `pack[key] || dict.en[key] || key`. */
  function Template(lang: string, key: string): (t: string)
    ensures key !in Keys ==> t == key
  {
    var pack := Pack(lang);
    if key in pack && pack[key] != "" then pack[key]
    else if key in En() && En()[key] != "" then En()[key]
    else key
  }

  /** A known key reads from the user's pack (English for any other language), an unknown key is its own template. */
  lemma TemplateChoice(lang: string, key: string)
    ensures key in Keys ==> Template(lang, key) == (if lang == "ja" then Ja() else En())[key]
    ensures key !in Keys ==> Template(lang, key) == key
  {
    PacksAgree();
  }

  // ------------------------------------------------------------ substitution

  /** `\w`: ASCII letters, digits and '_'. */
  predicate IsWordChar(c: char) {
    'a' <= c <= 'z' || 'A' <= c <= 'Z' || '0' <= c <= '9' || c == '_'
  }

  /** The longest prefix of word characters. */
  function Word(s: string): (w: string)
    ensures w <= s && forall i :: 0 <= i < |w| ==> IsWordChar(w[i])
    ensures |w| < |s| ==> !IsWordChar(s[|w|])
  {
    if s != [] && IsWordChar(s[0]) then [s[0]] + Word(s[1..]) else []
  }

  /**
    `template.replace(/\{(\w+)\}/g, (_, k) => vars[k] ?? "{" + k + "}")`:
    scanning left to right, a '{' followed by one or more word characters
    and '}' is a placeholder, replaced by its variable or left as it is;
    any other character is copied.
  */
  function Subst(t: string, vars: map<string, string>): string
    decreases |t|
  {
    if t == [] then []
    else
      var w := Word(t[1..]);
      if t[0] == '{' && |w| > 0 && |w| + 1 < |t| && t[|w| + 1] == '}' then
        (if w in vars then vars[w] else "{" + w + "}") + Subst(t[|w| + 2..], vars)
      else [t[0]] + Subst(t[1..], vars)
  }

  /** A template without '{' comes back unchanged. */
  lemma {:induction false} SubstNoBrace(t: string, vars: map<string, string>)
    requires '{' !in t
    ensures Subst(t, vars) == t
    decreases |t|
  {
    if t != [] {
      SubstNoBrace(t[1..], vars);
      assert [t[0]] + t[1..] == t;
    }
  }

  /** With no variables every placeholder is left as it is: the template comes back unchanged. */
  lemma {:induction false} SubstNoVars(t: string)
    ensures Subst(t, map[]) == t
    decreases |t|
  {
    if t != [] {
      var w := Word(t[1..]);
      if t[0] == '{' && |w| > 0 && |w| + 1 < |t| && t[|w| + 1] == '}' {
        var rest := t[|w| + 2..];
        SubstNoVars(rest);
        PlaceholderShape(t, w);
        SubstPlaceholder(w, rest, map[]);
      } else {
        SubstNoVars(t[1..]);
        assert [t[0]] + t[1..] == t;
      }
    }
  }

  /** A text that opens with a placeholder is '{', its word, '}' and the rest. */
  lemma PlaceholderShape(t: string, w: string)
    requires |w| > 0 && |w| + 1 < |t| && w == Word(t[1..]) && t[0] == '{' && t[|w| + 1] == '}'
    ensures t == "{" + w + "}" + t[|w| + 2..]
    ensures forall i :: 0 <= i < |w| ==> IsWordChar(w[i])
  {
    assert t[1..][..|w|] == w;
    assert t[1..|w| + 1] == w;
  }

  /** A placeholder is replaced by its variable's value, and the rest is substituted after it. */
  lemma SubstPlaceholder(w: string, rest: string, vars: map<string, string>)
    requires |w| > 0 && forall i :: 0 <= i < |w| ==> IsWordChar(w[i])
    ensures Subst("{" + w + "}" + rest, vars)
      == (if w in vars then vars[w] else "{" + w + "}") + Subst(rest, vars)
  {
    var t := "{" + w + "}" + rest;
    assert t[1..] == w + ("}" + rest);
    WordOfWord(w, "}" + rest);
    assert t[|w| + 2..] == rest;
  }

  /** The word at the head of w + s is w when s does not start with a word character. */
  lemma {:induction false} WordOfWord(w: string, s: string)
    requires forall i :: 0 <= i < |w| ==> IsWordChar(w[i])
    requires s != [] && !IsWordChar(s[0])
    ensures Word(w + s) == w
    decreases |w|
  {
    if w != [] {
      assert (w + s)[1..] == w[1..] + s;
      WordOfWord(w[1..], s);
      assert [w[0]] + w[1..] == w;
    }
  }

  /**
    Text copied before a placeholder: a character that does not open a
    placeholder is kept, whether it is not '{' or a '{' that is not followed
    by a word and '}'.
  */
  lemma SubstKeeps(c: char, rest: string, vars: map<string, string>)
    requires c != '{' || Word(rest) == [] || |Word(rest)| == |rest| || rest[|Word(rest)|] != '}'
    ensures Subst([c] + rest, vars) == [c] + Subst(rest, vars)
  {
    assert ([c] + rest)[1..] == rest;
  }

  /** The language table of the module, with `setUserLang`, `getUserLang` and `t`. */
  class Languages {
    var userLang: map<UserId, string>

    constructor (saved: map<UserId, string>)
      ensures userLang == saved
    {
      userLang := saved;
    }

    /** `setUserLang`: anything but "en" and "ja" is ignored. */
    method SetUserLang(u: UserId, lang: string)
      modifies this
      ensures userLang == Assign(old(userLang), u, lang)
      ensures Supported(lang) ==> UserLang(u) == lang
    {
      if !Supported(lang) {
        return;
      }
      userLang := userLang[u := lang];
    }

    /** `getUserLang`. */
    function UserLang(u: UserId): (l: string)
      reads this
      ensures l == LangOf(userLang, u)
    {
      LangOf(userLang, u)
    }

    /** `t(u, key, vars)`. */
    function T(u: UserId, key: string, vars: map<string, string>): (s: string)
      reads this
      ensures key !in Keys && '{' !in key ==> s == key
      ensures vars == map[] ==> s == Template(UserLang(u), key)
      ensures s == Subst(Template(UserLang(u), key), vars)
    {
      var template := Template(UserLang(u), key);
      SubstNoVars(template);
      if '{' in key then Subst(template, vars)
      else SubstNoBrace(key, vars); Subst(template, vars)
    }
  }
}
