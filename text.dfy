/** The few string operations the permission generators use: `str.lower`,
    `in` on strings and `str.replace(pattern, "")`, on ASCII text. */
module Text {

  /** Lower-cases one character in the ASCII range; any other character is kept. */
  function LowerChar(c: char): char
  {
    if 'A' <= c <= 'Z' then (c as int + 32) as char else c
  }

  /** `s.lower()`, restricted to ASCII letters. */
  function Lower(s: string): string
  {
    seq(|s|, i requires 0 <= i < |s| => LowerChar(s[i]))
  }

  /** `p in s`: `p` occurs as a contiguous part of `s`. */
  predicate Contains(s: string, p: string)
    decreases |s|
  {
    p <= s || (|s| > 0 && Contains(s[1..], p))
  }

  /** `p` occurs in `s` starting at position `i`. */
  ghost predicate OccursAt(s: string, p: string, i: int)
  {
    0 <= i && i + |p| <= |s| && s[i..i + |p|] == p
  }

  /** `Contains` agrees with the positional definition of an occurrence. */
  lemma {:induction false} ContainsIff(s: string, p: string)
    ensures Contains(s, p) <==> exists i :: OccursAt(s, p, i)
    decreases |s|
  {
    if p <= s {
      assert OccursAt(s, p, 0);
    } else if |s| == 0 {
      assert |p| > 0;
    } else {
      ContainsIff(s[1..], p);
      if exists i :: OccursAt(s[1..], p, i) {
        var i :| OccursAt(s[1..], p, i);
        assert s[1..][i..i + |p|] == s[i + 1..i + 1 + |p|];
        assert OccursAt(s, p, i + 1);
      }
      if exists i :: OccursAt(s, p, i) {
        var i :| OccursAt(s, p, i);
        assert i > 0;
        assert s[1..][i - 1..i - 1 + |p|] == s[i..i + |p|];
        assert OccursAt(s[1..], p, i - 1);
      }
    }
  }

  /** An occurrence never is longer than the text it occurs in. */
  lemma {:induction false} ContainsLength(s: string, p: string)
    requires Contains(s, p)
    ensures |p| <= |s|
    decreases |s|
  {
    if !(p <= s) {
      ContainsLength(s[1..], p);
    }
  }

  /** `s.replace(p, "")`: one left-to-right pass that deletes every
      non-overlapping occurrence of `p`. Removing a pattern never lengthens
      the text, removes at least one whole pattern when there is one, and
      changes nothing when there is none, so testing `p in s` first, as the
      generators do, never changes the result. */
  function RemoveAll(s: string, p: string): (r: string)
    requires |p| > 0
    ensures |r| <= |s|
    ensures !Contains(s, p) ==> r == s
    ensures Contains(s, p) ==> |r| <= |s| - |p|
    decreases |s|
  {
    if |s| < |p| then
      if Contains(s, p) then ContainsLength(s, p); s else s
    else if p <= s then RemoveAll(s[|p|..], p)
    else [s[0]] + RemoveAll(s[1..], p)
  }

  /** Deletion is a single pass: an occurrence formed by joining the text
      around a deleted one survives. */
  lemma RemoveAllSinglePass()
    ensures RemoveAll("<<p>p>", "<p>") == "<p>"
  {
    var s, p := "<<p>p>", "<p>";
    assert s[1] == '<' && p[1] == 'p';
    assert !(p <= s);
    assert s[1..] == "<p>p>";
    assert "<p>p>"[..3] == p;
    assert "<p>p>"[3..] == "p>";
    assert RemoveAll("p>", p) == "p>";
    assert RemoveAll("<p>p>", p) == "p>";
    assert RemoveAll(s, p) == [s[0]] + RemoveAll(s[1..], p);
    assert [s[0]] + "p>" == "<p>";
  }

  /** A text without `<` passes unchanged through the deletion of a pattern
      that starts with `<`. */
  lemma {:induction false} RemoveAllKeepsPlain(w: string, t: string, p: string)
    requires |p| > 0 && p[0] == '<'
    requires '<' !in w
    ensures RemoveAll(w + t, p) == w + RemoveAll(t, p)
    decreases |w|
  {
    if w == [] {
      assert w + t == t;
    } else if |w + t| < |p| {
      assert !Contains(t, p) by {
        if Contains(t, p) { ContainsLength(t, p); }
      }
    } else {
      assert (w + t)[0] == w[0] != p[0];
      assert !(p <= w + t);
      assert (w + t)[1..] == w[1..] + t;
      RemoveAllKeepsPlain(w[1..], t, p);
      assert [w[0]] + (w[1..] + RemoveAll(t, p)) == w + RemoveAll(t, p);
    }
  }

  /** The paragraph markup the generators strip from a description before
      they compare it with a role name: every `<p>`, then every `</p>`. */
  function StripMarkup(text: string): string
  {
    var withoutOpen := if Contains(text, "<p>") then RemoveAll(text, "<p>") else text;
    if Contains(withoutOpen, "</p>") then RemoveAll(withoutOpen, "</p>") else withoutOpen
  }

  /** A leading occurrence is deleted, and the pass carries on after it. */
  lemma RemoveAllLeading(p: string, t: string)
    requires |p| > 0
    ensures RemoveAll(p + t, p) == RemoveAll(t, p)
  {
    assert p <= p + t;
    assert (p + t)[|p|..] == t;
  }

  /** Guarding `replace` with `in`, as the generators do, changes nothing. */
  lemma GuardedRemoveAll(s: string, p: string)
    requires |p| > 0
    ensures (if Contains(s, p) then RemoveAll(s, p) else s) == RemoveAll(s, p)
  {
  }

  /** Deleting every `<p>` leaves a closing `</p>` in place. */
  lemma CloseTagKept(t: string)
    ensures RemoveAll("</p>" + t, "<p>") == "</p>" + RemoveAll(t, "<p>")
  {
    var s := "</p>" + t;
    assert s[1] == '/' && "<p>"[1] == 'p';
    assert !("<p>" <= s);
    assert s[1..] == "/p>" + t;
    RemoveAllKeepsPlain("/p>", t, "<p>");
    assert [s[0]] + ("/p>" + RemoveAll(t, "<p>")) == "</p>" + RemoveAll(t, "<p>");
  }

  /** No word of `ws` contains `<`, so none of them holds markup. */
  predicate Plain(ws: seq<string>)
  {
    forall k :: 0 <= k < |ws| ==> '<' !in ws[k]
  }

  /** The words of `ws` run together. */
  function Concat(ws: seq<string>): string
    decreases |ws|
  {
    if ws == [] then [] else ws[0] + Concat(ws[1..])
  }

  /** The words of `ws` as consecutive paragraphs: `<p>w1</p><p>w2</p>...`. */
  function Paragraphs(ws: seq<string>): string
    decreases |ws|
  {
    if ws == [] then [] else "<p>" + ws[0] + "</p>" + Paragraphs(ws[1..])
  }

  /** `Paragraphs(ws)` with its opening tags gone: `w1</p>w2</p>...`. */
  function ClosedWords(ws: seq<string>): string
    decreases |ws|
  {
    if ws == [] then [] else ws[0] + "</p>" + ClosedWords(ws[1..])
  }

  /** Removing `<p>` deletes the opening tag of every paragraph, not only the first. */
  lemma {:induction false} OpenTagsRemoved(ws: seq<string>)
    requires Plain(ws)
    ensures RemoveAll(Paragraphs(ws), "<p>") == ClosedWords(ws)
    decreases |ws|
  {
    if ws != [] {
      var w, rest := ws[0], Paragraphs(ws[1..]);
      assert Plain(ws[1..]) by {
        forall k | 0 <= k < |ws[1..]| ensures '<' !in ws[1..][k] {
          assert ws[1..][k] == ws[k + 1];
        }
      }
      OpenTagsRemoved(ws[1..]);
      assert Paragraphs(ws) == "<p>" + (w + ("</p>" + rest));
      RemoveAllLeading("<p>", w + ("</p>" + rest));
      assert '<' !in ws[0];
      RemoveAllKeepsPlain(w, "</p>" + rest, "<p>");
      CloseTagKept(rest);
      assert w + ("</p>" + ClosedWords(ws[1..])) == ClosedWords(ws);
    }
  }

  /** Removing `</p>` then deletes every closing tag, leaving the words run together. */
  lemma {:induction false} CloseTagsRemoved(ws: seq<string>)
    requires Plain(ws)
    ensures RemoveAll(ClosedWords(ws), "</p>") == Concat(ws)
    decreases |ws|
  {
    if ws != [] {
      var w, rest := ws[0], ClosedWords(ws[1..]);
      assert Plain(ws[1..]) by {
        forall k | 0 <= k < |ws[1..]| ensures '<' !in ws[1..][k] {
          assert ws[1..][k] == ws[k + 1];
        }
      }
      CloseTagsRemoved(ws[1..]);
      assert ClosedWords(ws) == w + ("</p>" + rest);
      assert '<' !in ws[0];
      RemoveAllKeepsPlain(w, "</p>" + rest, "</p>");
      RemoveAllLeading("</p>", rest);
    }
  }

  /** Any number of paragraphs of plain words lose all their markup: the
      stripped text is the words run together. */
  lemma StripParagraphsAll(ws: seq<string>)
    requires Plain(ws)
    ensures StripMarkup(Paragraphs(ws)) == Concat(ws)
  {
    OpenTagsRemoved(ws);
    CloseTagsRemoved(ws);
    GuardedRemoveAll(Paragraphs(ws), "<p>");
    GuardedRemoveAll(ClosedWords(ws), "</p>");
  }

  /** Two paragraphs: both pairs of tags go, as the one-pass `replace` of
      every occurrence does and a first-occurrence deletion would not. */
  lemma StripTwoParagraphs(a: string, b: string)
    requires '<' !in a && '<' !in b
    ensures StripMarkup("<p>" + a + "</p><p>" + b + "</p>") == a + b
  {
    var ws := [a, b];
    assert Plain(ws);
    assert ws[1..] == [b] && ws[1..][1..] == [];
    assert Paragraphs(ws[1..]) == "<p>" + b + "</p>" + [];
    assert "</p><p>" == "</p>" + "<p>";
    assert Paragraphs(ws) == "<p>" + a + "</p><p>" + b + "</p>";
    assert Concat(ws[1..]) == b + [];
    assert Concat(ws) == a + b;
    StripParagraphsAll(ws);
  }

  /** A word wrapped in one paragraph comes out as the bare word. */
  lemma StripWrapped(w: string)
    requires '<' !in w
    ensures StripMarkup("<p>" + w + "</p>") == w
  {
    var ws := [w];
    assert Plain(ws);
    assert ws[1..] == [];
    assert Paragraphs(ws) == "<p>" + w + "</p>" + [];
    assert "<p>" + w + "</p>" + [] == "<p>" + w + "</p>";
    assert Concat(ws) == w + [];
    assert w + [] == w;
    StripParagraphsAll(ws);
  }
}
