// The two HTML escapers: five replaces in a row (scripts/build-amplify-portal.mjs) and one
// pass over the characters (packages/ui-design-system/public/product-tools.js).
module HtmlEscape {

  predicate Special(c: char)
  {
    c == '&' || c == '<' || c == '>' || c == '"' || c == '\''
  }

  function Entity(c: char): (e: string)
    requires Special(c)
    ensures |e| >= 4 && e[0] == '&' && forall i :: 0 < i < |e| ==> !Special(e[i])
  {
    match c
    case '&' => "&amp;"
    case '<' => "&lt;"
    case '>' => "&gt;"
    case '"' => "&quot;"
    case _ => "&#39;"
  }

  // String.replace with a global pattern of one character.
  function ReplaceAll(s: string, c: char, text: string): string
  {
    if s == "" then "" else (if s[0] == c then text else [s[0]]) + ReplaceAll(s[1..], c, text)
  }

  function EscapeHtml(value: string): string
  {
    var s1 := ReplaceAll(value, '&', "&amp;");
    var s2 := ReplaceAll(s1, '<', "&lt;");
    var s3 := ReplaceAll(s2, '>', "&gt;");
    var s4 := ReplaceAll(s3, '"', "&quot;");
    ReplaceAll(s4, '\'', "&#39;")
  }

  // The single pass.
  function Esc(value: string): string
  {
    if value == "" then ""
    else (if Special(value[0]) then Entity(value[0]) else [value[0]]) + Esc(value[1..])
  }

  // ----- Orders of replacement -----

  function Chain(order: seq<char>, s: string): string
    requires forall i :: 0 <= i < |order| ==> Special(order[i])
  {
    if order == [] then s else Chain(order[1..], ReplaceAll(s, order[0], Entity(order[0])))
  }

  // Each of the five once.
  ghost predicate IsOrder(order: seq<char>)
  {
    && order != []
    && (forall i :: 0 <= i < |order| ==> Special(order[i]))
    && (forall i, j :: 0 <= i < j < |order| ==> order[i] != order[j])
    && (forall c :: Special(c) ==> c in order)
  }

  function Chars(order: seq<char>): set<char>
  {
    set c | c in order
  }

  // The single pass restricted to some of the characters.
  function EscSome(chars: set<char>, s: string): string
    requires forall c :: c in chars ==> Special(c)
  {
    if s == "" then ""
    else (if s[0] in chars then Entity(s[0]) else [s[0]]) + EscSome(chars, s[1..])
  }

  lemma {:induction false} ReplaceConcat(s: string, t: string, c: char, text: string)
    ensures ReplaceAll(s + t, c, text) == ReplaceAll(s, c, text) + ReplaceAll(t, c, text)
  {
    if s == "" {
      assert s + t == t;
    } else {
      assert (s + t)[1..] == s[1..] + t;
      ReplaceConcat(s[1..], t, c, text);
    }
  }

  lemma {:induction false} ReplaceAbsent(s: string, c: char, text: string)
    requires c !in s
    ensures ReplaceAll(s, c, text) == s
  {
    if s != "" {
      ReplaceAbsent(s[1..], c, text);
    }
  }

  // Replacing one more character after others is escaping one more, provided the replace
  // does not hit the entities already written.
  lemma {:induction false} ReplaceOneMore(chars: set<char>, s: string, c: char)
    requires forall x :: x in chars ==> Special(x)
    requires Special(c) && c !in chars && (c == '&' ==> chars == {})
    ensures ReplaceAll(EscSome(chars, s), c, Entity(c)) == EscSome(chars + {c}, s)
  {
    if s != "" {
      var head := if s[0] in chars then Entity(s[0]) else [s[0]];
      ReplaceConcat(head, EscSome(chars, s[1..]), c, Entity(c));
      ReplaceOneMore(chars, s[1..], c);
      if s[0] in chars {
        ReplaceAbsent(head, c, Entity(c));
      } else {
        assert [s[0]][1..] == "";
      }
    }
  }

  lemma {:induction false} ChainSome(order: seq<char>, chars: set<char>, s: string)
    requires forall x :: x in chars ==> Special(x)
    requires forall i :: 0 <= i < |order| ==>
      Special(order[i]) && order[i] !in chars && (order[i] == '&' ==> i == 0 && chars == {})
    requires forall i, j :: 0 <= i < j < |order| ==> order[i] != order[j]
    ensures Chain(order, EscSome(chars, s)) == EscSome(chars + Chars(order), s)
    decreases |order|
  {
    if order == [] {
      assert chars + Chars(order) == chars;
    } else {
      var c, rest := order[0], order[1..];
      ReplaceOneMore(chars, s, c);
      ChainSome(rest, chars + {c}, s);
      assert order == [c] + rest;
      assert chars + Chars(order) == chars + {c} + Chars(rest);
    }
  }

  lemma {:induction false} EscSomeBounds(chars: set<char>, s: string)
    requires forall x :: x in chars ==> Special(x)
    ensures chars == {} ==> EscSome(chars, s) == s
    ensures (forall x :: Special(x) ==> x in chars) ==> EscSome(chars, s) == Esc(s)
  {
    if s != "" {
      EscSomeBounds(chars, s[1..]);
    }
  }

  // On text whose only special character is a leading ampersand, other replaces do nothing.
  lemma {:induction false} ChainAbsent(order: seq<char>, e: string)
    requires forall i :: 0 <= i < |order| ==> Special(order[i]) && order[i] != '&'
    requires e != "" && e[0] == '&' && forall i :: 0 < i < |e| ==> !Special(e[i])
    ensures Chain(order, e) == e
    decreases |order|
  {
    if order != [] {
      ReplaceAbsent(e, order[0], Entity(order[0]));
      ChainAbsent(order[1..], e);
    }
  }

  lemma {:induction false} ChainDoubles(order: seq<char>, e: string)
    requires forall i :: 0 <= i < |order| ==> Special(order[i])
    requires forall i, j :: 0 <= i < j < |order| ==> order[i] != order[j]
    requires '&' in order
    requires e != "" && e[0] == '&' && forall i :: 0 < i < |e| ==> !Special(e[i])
    ensures |Chain(order, e)| == |e| + 4
    decreases |order|
  {
    var rest := order[1..];
    if order[0] == '&' {
      ReplaceAbsent(e[1..], '&', Entity('&'));
      ChainAbsent(rest, Entity('&') + e[1..]);
    } else {
      ReplaceAbsent(e, order[0], Entity(order[0]));
      assert '&' in rest;
      ChainDoubles(rest, e);
    }
  }

  // An order of replaces agrees with the single pass on every string exactly when the
  // ampersand comes first.
  lemma AmpersandFirst(order: seq<char>)
    requires IsOrder(order)
    ensures (forall s: string :: Chain(order, s) == Esc(s)) <==> order[0] == '&'
  {
    assert '&' in order;
    if order[0] == '&' {
      forall s: string ensures Chain(order, s) == Esc(s) {
        ChainSome(order, {}, s);
        EscSomeBounds({}, s);
        EscSomeBounds({} + Chars(order), s);
      }
    } else {
      var x := order[0];
      var e := Entity(x);
      assert ReplaceAll([x], x, e) == e + ReplaceAll("", x, e) == e;
      ChainDoubles(order[1..], e);
      assert Esc([x]) == e + Esc("") == e;
      assert Chain(order, [x]) != Esc([x]);
    }
  }

  lemma ChainStep(c: char, rest: seq<char>, s: string)
    requires Special(c) && forall i :: 0 <= i < |rest| ==> Special(rest[i])
    ensures Chain([c] + rest, s) == Chain(rest, ReplaceAll(s, c, Entity(c)))
  {
    assert ([c] + rest)[1..] == rest;
  }

  // The five replaces of the source are the single pass.
  lemma EscapeHtmlIsEsc(value: string)
    ensures EscapeHtml(value) == Esc(value)
  {
    hide ReplaceAll, Esc;
    var order: seq<char> := ['&', '<', '>', '"', '\''];
    AmpersandFirst(order);
    var s1 := ReplaceAll(value, '&', "&amp;");
    var s2 := ReplaceAll(s1, '<', "&lt;");
    var s3 := ReplaceAll(s2, '>', "&gt;");
    var s4 := ReplaceAll(s3, '"', "&quot;");
    ChainStep('&', ['<', '>', '"', '\''], value);
    ChainStep('<', ['>', '"', '\''], s1);
    ChainStep('>', ['"', '\''], s2);
    ChainStep('"', ['\''], s3);
    ChainStep('\'', [], s4);
  }

  // ----- Reading escaped text -----

  // The character whose entity starts here, if any.
  function EntityAt(s: string): (c: string)
    ensures |c| <= 1 && (c != "" ==> Special(c[0]) && Entity(c[0]) <= s)
  {
    if "&amp;" <= s then "&" else if "&lt;" <= s then "<" else if "&gt;" <= s then ">"
    else if "&quot;" <= s then "\"" else if "&#39;" <= s then "'" else ""
  }

  function Unescape(s: string): string
    decreases |s|
  {
    if s == "" then ""
    else if EntityAt(s) != "" then EntityAt(s) + Unescape(s[|Entity(EntityAt(s)[0])|..])
    else [s[0]] + Unescape(s[1..])
  }

  lemma EntityRead(c: char, rest: string)
    requires Special(c)
    ensures EntityAt(Entity(c) + rest) == [c]
  {
    var s := Entity(c) + rest;
    assert s[1] == Entity(c)[1] && s[2] == Entity(c)[2];
  }

  // Escaping loses nothing.
  lemma {:induction false} UnescapeEsc(value: string)
    ensures Unescape(Esc(value)) == value
  {
    if value != "" {
      var c, rest := value[0], Esc(value[1..]);
      UnescapeEsc(value[1..]);
      if Special(c) {
        EntityRead(c, rest);
        assert (Entity(c) + rest)[|Entity(c)|..] == rest;
      } else {
        assert ([c] + rest)[1..] == rest;
        assert EntityAt([c] + rest) == "";
      }
    }
  }

  lemma EscapeHtmlInjective(a: string, b: string)
    requires EscapeHtml(a) == EscapeHtml(b)
    ensures a == b
  {
    EscapeHtmlIsEsc(a);
    EscapeHtmlIsEsc(b);
    UnescapeEsc(a);
    UnescapeEsc(b);
  }

  // No markup character survives, and every ampersand starts one of the five entities.
  lemma {:induction false} EscIsInert(value: string, i: nat)
    requires i < |Esc(value)|
    ensures Special(Esc(value)[i]) ==> Esc(value)[i] == '&' && EntityAt(Esc(value)[i..]) != ""
  {
    var c := value[0];
    var head, rest := if Special(c) then Entity(c) else [c], Esc(value[1..]);
    if i >= |head| {
      EscIsInert(value[1..], i - |head|);
      assert Esc(value)[i..] == rest[i - |head|..];
    } else if i == 0 && Special(c) {
      EntityRead(c, rest);
      assert Esc(value)[0..] == Entity(c) + rest;
    }
  }

  // Each character on its own: the five entities in full, and everything else as it is.
  lemma EscOneMore(c: char, rest: string)
    ensures Esc("") == ""
    ensures Esc([c] + rest) ==
      (if c == '&' then "&amp;" else if c == '<' then "&lt;" else if c == '>' then "&gt;"
       else if c == '"' then "&quot;" else if c == '\'' then "&#39;" else [c]) + Esc(rest)
  {
    assert ([c] + rest)[1..] == rest;
  }
}
