/**
 * The code-fence stripper applied to text produced by the generation services
 * (`cleanJson` in src/components/GenerateFromPromptButton.tsx, and the same steps written inline
 * in src/components/JsonExportButton.tsx): trim, drop a leading "```json" and trim again, drop a
 * trailing "```" and trim again.
 */
module Fences {

  import opened Text

  const OpeningFence: string := "```json"
  const ClosingFence: string := "```"

  /** `t.replace(/^```json/, "").trim()` when `t` starts with the opening fence, else `t`. */
  function DropOpening(t: string): string {
    if StartsWith(t, OpeningFence) then Trim(t[|OpeningFence|..]) else t
  }

  /** `t.replace(/```$/, "").trim()` when `t` ends with the closing fence, else `t`. */
  function DropClosing(t: string): string {
    if EndsWith(t, ClosingFence) then Trim(t[..|t| - |ClosingFence|]) else t
  }

  /** The text the cleanup hands to the importer. */
  function Unfenced(raw: string): (r: string)
    ensures IsTrimmed(r)
    ensures !StartsWith(Trim(raw), OpeningFence) && !EndsWith(Trim(raw), ClosingFence) ==> r == Trim(raw)
  {
    DropClosing(DropOpening(Trim(raw)))
  }

  /** `cleanJson`: the local `cleaned` reassigned one step at a time. */
  method CleanJson(raw: string) returns (cleaned: string)
    ensures cleaned == Unfenced(raw)
    ensures IsTrimmed(cleaned)
  {
    cleaned := Trim(raw);
    if StartsWith(cleaned, OpeningFence) {
      cleaned := Trim(cleaned[|OpeningFence|..]);
    }
    if EndsWith(cleaned, ClosingFence) {
      cleaned := Trim(cleaned[..|cleaned| - |ClosingFence|]);
    }
  }

  // ---------------------------------------------------------------- whitespace around a body

  lemma {:induction false} TrimStartSkipsWhitespace(w: string, x: string)
    requires AllWhitespace(w)
    ensures TrimStart(w + x) == TrimStart(x)
    decreases |w|
  {
    if w == [] {
      assert w + x == x;
    } else {
      assert (w + x)[0] == w[0] && IsWhitespace(w[0]);
      assert (w + x)[1..] == w[1..] + x;
      TrimStartSkipsWhitespace(w[1..], x);
    }
  }

  lemma {:induction false} TrimEndSkipsWhitespace(x: string, w: string)
    requires AllWhitespace(w)
    ensures TrimEnd(x + w) == TrimEnd(x)
    decreases |w|
  {
    if w == [] {
      assert x + w == x;
    } else {
      assert (x + w)[|x + w| - 1] == w[|w| - 1] && IsWhitespace(w[|w| - 1]);
      assert (x + w)[..|x + w| - 1] == x + w[..|w| - 1];
      TrimEndSkipsWhitespace(x, w[..|w| - 1]);
    }
  }

  lemma TrimIsBothEnds(s: string)
    ensures Trim(s) == TrimEnd(TrimStart(s))
  {
  }

  /** Trimming whitespace followed by `x` that starts and ends with non-whitespace gives `x`. */
  lemma TrimAfterWhitespace(w: string, x: string)
    requires AllWhitespace(w) && x != [] && IsTrimmed(x)
    ensures Trim(w + x) == x
  {
    TrimIsBothEnds(w + x);
    TrimStartSkipsWhitespace(w, x);
  }

  /** Dropping the opening fence also drops the whitespace after it, and after an empty body. */
  lemma DropOpeningWrapped(w1: string, body: string, w2: string)
    requires AllWhitespace(w1) && AllWhitespace(w2) && IsTrimmed(body)
    ensures DropOpening(OpeningFence + w1 + body + w2 + ClosingFence) ==
      if body == [] then ClosingFence else body + w2 + ClosingFence
  {
    var raw := OpeningFence + w1 + body + w2 + ClosingFence;
    var inner := body + w2 + ClosingFence;
    assert raw == OpeningFence + (w1 + inner);
    assert StartsWith(raw, OpeningFence);
    assert raw[|OpeningFence|..] == w1 + inner;
    if body == [] {
      assert w1 + inner == (w1 + w2) + ClosingFence;
      TrimAfterWhitespace(w1 + w2, ClosingFence);
    } else {
      assert inner[0] == body[0];
      assert inner[|inner| - 1] == '`';
      TrimAfterWhitespace(w1, inner);
    }
  }

  /**
   * A body wrapped as a model answer usually is, "```json", whitespace, the body, whitespace and
   * "```", comes out as exactly the body, empty or not.
   */
  lemma UnfencedWrappedBody(w1: string, body: string, w2: string)
    requires AllWhitespace(w1) && AllWhitespace(w2) && IsTrimmed(body)
    ensures Unfenced(OpeningFence + w1 + body + w2 + ClosingFence) == body
  {
    var raw := OpeningFence + w1 + body + w2 + ClosingFence;
    assert raw[0] == '`' && raw[|raw| - 1] == '`';
    assert Trim(raw) == raw;
    DropOpeningWrapped(w1, body, w2);
    var afterOpening := DropOpening(raw);
    assert EndsWith(afterOpening, ClosingFence);
    if body == [] {
      assert afterOpening[..|afterOpening| - |ClosingFence|] == [];
    } else {
      assert afterOpening[..|afterOpening| - |ClosingFence|] == body + w2;
      TrimEndSkipsWhitespace(body, w2);
      assert TrimStart(body + w2) == body + w2 by {
        assert (body + w2)[0] == body[0];
      }
    }
  }

  /** Leading whitespace is dropped up to the first other character, whatever follows `a`. */
  lemma {:induction false} TrimStartThrough(a: string, b: string)
    requires TrimStart(a) != []
    ensures TrimStart(a + b) == TrimStart(a) + b
    decreases |a|
  {
    if IsWhitespace(a[0]) {
      assert (a + b)[1..] == a[1..] + b;
      TrimStartThrough(a[1..], b);
    } else {
      assert (a + b)[0] == a[0];
    }
  }

  /** Trailing whitespace is dropped back to the last other character, whatever precedes `b`. */
  lemma {:induction false} TrimEndThrough(a: string, b: string)
    requires TrimEnd(b) != []
    ensures TrimEnd(a + b) == a + TrimEnd(b)
    decreases |b|
  {
    if IsWhitespace(b[|b| - 1]) {
      assert (a + b)[..|a + b| - 1] == a + b[..|b| - 1];
      TrimEndThrough(a, b[..|b| - 1]);
    } else {
      assert (a + b)[|a + b| - 1] == b[|b| - 1];
    }
  }

  /** Trimming the end first does not change what `trim()` gives. */
  lemma TrimAfterTrimEnd(x: string)
    ensures Trim(TrimEnd(x)) == Trim(x)
  {
    TrimEndSkips(x);
    var e := TrimEnd(x);
    var w := x[|e|..];
    assert x == e + w;
    if e != [] {
      TrimStartSkips(e);
      assert TrimStart(e) != [];
      TrimStartThrough(e, w);
      TrimEndSkipsWhitespace(TrimStart(e), w);
      TrimIsBothEnds(x);
      TrimIsBothEnds(e);
    }
  }

  /** Trimming the start first does not change what `trim()` gives. */
  lemma TrimAfterTrimStart(x: string)
    ensures Trim(TrimStart(x)) == Trim(x)
  {
    TrimStartSkips(x);
    var t := TrimStart(x);
    assert TrimStart(t) == t;
    TrimIsBothEnds(x);
    TrimIsBothEnds(t);
  }

  /** Trimming text after an opening fence only trims the text's end. */
  lemma TrimAfterOpening(x: string)
    ensures Trim(OpeningFence + x) == OpeningFence + TrimEnd(x)
  {
    var s := OpeningFence + x;
    TrimIsBothEnds(s);
    assert s[0] == '`';
    assert TrimStart(s) == s;
    TrimEndSkips(x);
    if TrimEnd(x) == [] {
      assert x[|TrimEnd(x)|..] == x;
      TrimEndSkipsWhitespace(OpeningFence, x);
    } else {
      TrimEndThrough(OpeningFence, x);
    }
  }

  /** Trimming text before a closing fence only trims the text's start. */
  lemma TrimBeforeClosing(x: string)
    ensures Trim(x + ClosingFence) == TrimStart(x) + ClosingFence
  {
    var s := x + ClosingFence;
    var t := TrimStart(x);
    TrimIsBothEnds(s);
    TrimStartSkips(x);
    if t == [] {
      assert x[..|x| - |t|] == x;
      TrimStartSkipsWhitespace(x, ClosingFence);
      assert t + ClosingFence == ClosingFence;
    } else {
      TrimStartThrough(x, ClosingFence);
    }
    assert (t + ClosingFence)[|t + ClosingFence| - 1] == '`';
  }

  /**
   * An answer cut off after its opening fence, "```json" and then text that does not end in
   * "```" once trimmed, loses the opening fence and comes out as that text, trimmed.
   */
  lemma UnfencedOpeningOnly(x: string)
    requires !EndsWith(Trim(x), ClosingFence)
    ensures Unfenced(OpeningFence + x) == Trim(x)
  {
    TrimAfterOpening(x);
    assert (OpeningFence + TrimEnd(x))[|OpeningFence|..] == TrimEnd(x);
    TrimAfterTrimEnd(x);
  }

  /**
   * An answer with only a closing fence, text that does not begin with "```json" once trimmed
   * and then "```", loses the closing fence and comes out as that text, trimmed.
   */
  lemma UnfencedClosingOnly(x: string)
    requires !StartsWith(TrimStart(x) + ClosingFence, OpeningFence)
    ensures Unfenced(x + ClosingFence) == Trim(x)
  {
    var t := TrimStart(x);
    TrimBeforeClosing(x);
    assert (t + ClosingFence)[..|t + ClosingFence| - |ClosingFence|] == t;
    TrimAfterTrimStart(x);
  }

  /** Only a "```json" opening is recognised: an untagged fence keeps its opening backticks. */
  lemma UntaggedFenceIsKept()
    ensures Unfenced("```\n{}\n```") == "```\n{}"
  {
    var raw := "```\n{}\n```";
    assert IsTrimmed(raw);
    assert !StartsWith(raw, OpeningFence) by {
      assert raw[3] != OpeningFence[3];
    }
    assert EndsWith(raw, ClosingFence);
    var front := raw[..|raw| - 3];
    assert front == "```\n{}\n";
    assert TrimStart(front) == front;
    assert TrimEnd(front) == "```\n{}" by {
      assert front[..|front| - 1] == "```\n{}";
    }
  }
}
