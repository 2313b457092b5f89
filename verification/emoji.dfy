/** The condition-glyph rule of the weather card: an OpenWeatherMap condition
    code is classified, first match wins, into one of seven glyphs. */
module Emoji {

  /** The seven glyphs the card can show. Drizzle and rain share one glyph. */
  datatype Glyph = Thunderstorm | Rain | Snow | Atmosphere | Clear | Clouds | Unknown

  /** The character each glyph is rendered as (one code point each). */
  function Render(g: Glyph): (s: string)
    ensures |s| == 1
  {
    match g
    case Thunderstorm => "\U{26C8}"
    case Rain => "\U{1F327}"
    case Snow => "\U{2744}"
    case Atmosphere => "\U{1F32B}"
    case Clear => "\U{2600}"
    case Clouds => "\U{2601}"
    case Unknown => "\U{2754}"
  }

  /** Distinct glyphs are told apart on screen. */
  lemma RenderInjective(g: Glyph, h: Glyph)
    ensures Render(g) == Render(h) <==> g == h
  {
  }

  /** `getEmoji`: the ordered decision list. Every lower bound is inclusive
      and every upper bound exclusive; codes in no band fall to Unknown. */
  function GetEmoji(code: int): (g: Glyph)
    ensures g == Thunderstorm <==> 200 <= code < 300
    ensures g == Rain <==> 300 <= code < 400 || 500 <= code < 600
    ensures g == Snow <==> 600 <= code < 700
    ensures g == Atmosphere <==> 700 <= code < 800
    ensures g == Clear <==> code == 800
    ensures g == Clouds <==> 801 <= code < 810
    ensures g == Unknown <==> code < 200 || 400 <= code < 500 || 810 <= code
  {
    if 200 <= code < 300 then Thunderstorm
    else if 300 <= code < 400 then Rain
    else if 500 <= code < 600 then Rain
    else if 600 <= code < 700 then Snow
    else if 700 <= code < 800 then Atmosphere
    else if code == 800 then Clear
    else if 801 <= code < 810 then Clouds
    else Unknown
  }

  /** One row of the glyph table: a half-open band of codes or a single code. */
  datatype Rule =
    | Band(lo: int, hi: int, glyph: Glyph)
    | Exact(code: int, glyph: Glyph)

  predicate Matches(r: Rule, code: int) {
    match r
    case Band(lo, hi, _) => lo <= code < hi
    case Exact(c, _) => code == c
  }

  /** The glyph table as data, in the order the decision list tries it. */
  const Table: seq<Rule> := [
    Band(200, 300, Thunderstorm),
    Band(300, 400, Rain),
    Band(500, 600, Rain),
    Band(600, 700, Snow),
    Band(700, 800, Atmosphere),
    Exact(800, Clear),
    Band(801, 810, Clouds)
  ]

  /** Generic first-match evaluation of a rule table with Unknown as default. */
  function Classify(rules: seq<Rule>, code: int): Glyph {
    if |rules| == 0 then Unknown
    else if Matches(rules[0], code) then rules[0].glyph
    else Classify(rules[1..], code)
  }

  /** The first matching rule decides. */
  lemma {:induction false} ClassifyFirstMatch(rules: seq<Rule>, i: nat, code: int)
    requires i < |rules| && Matches(rules[i], code)
    requires forall j :: 0 <= j < i ==> !Matches(rules[j], code)
    ensures Classify(rules, code) == rules[i].glyph
  {
    if i > 0 {
      assert !Matches(rules[0], code);
      forall j | 0 <= j < i - 1
        ensures !Matches(rules[1..][j], code)
      {
        assert rules[1..][j] == rules[j + 1];
      }
      ClassifyFirstMatch(rules[1..], i - 1, code);
    }
  }

  /** When no rule matches, the default is returned. */
  lemma {:induction false} ClassifyNoMatch(rules: seq<Rule>, code: int)
    requires forall j :: 0 <= j < |rules| ==> !Matches(rules[j], code)
    ensures Classify(rules, code) == Unknown
  {
    if |rules| > 0 {
      assert !Matches(rules[0], code);
      forall j | 0 <= j < |rules| - 1
        ensures !Matches(rules[1..][j], code)
      {
        assert rules[1..][j] == rules[j + 1];
      }
      ClassifyNoMatch(rules[1..], code);
    }
  }

  /** The hand-written decision list agrees with first-match evaluation of
      the table on every code. */
  lemma GetEmojiFollowsTable(code: int)
    ensures GetEmoji(code) == Classify(Table, code)
  {
    if 200 <= code < 300 {
      ClassifyFirstMatch(Table, 0, code);
    } else if 300 <= code < 400 {
      ClassifyFirstMatch(Table, 1, code);
    } else if 500 <= code < 600 {
      ClassifyFirstMatch(Table, 2, code);
    } else if 600 <= code < 700 {
      ClassifyFirstMatch(Table, 3, code);
    } else if 700 <= code < 800 {
      ClassifyFirstMatch(Table, 4, code);
    } else if code == 800 {
      ClassifyFirstMatch(Table, 5, code);
    } else if 801 <= code < 810 {
      ClassifyFirstMatch(Table, 6, code);
    } else {
      ClassifyNoMatch(Table, code);
    }
  }

  /** No code matches two rows, so the order of the table does not matter. */
  lemma TableRowsDisjoint(i: nat, j: nat, code: int)
    requires i < j < |Table|
    requires Matches(Table[i], code)
    ensures !Matches(Table[j], code)
  {
  }
}
