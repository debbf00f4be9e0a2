/** `openai_strip_tags`: every match of `<[^>]*>` replaced by nothing. A match
    starts at a `<` and runs to the first `>` after it, whatever lies between
    (other `<` included); a `<` with no `>` anywhere after it is kept, and so is
    everything after it. */
module Tags {

  /** No `<` has a `>` somewhere after it: there is nothing for the pattern to match. */
  predicate TagFree(s: string)
  {
    forall i, j :: 0 <= i < j < |s| && s[i] == '<' ==> s[j] != '>'
  }

  /** Index of the first `>` at or after `from`, or `|s|` when there is none. */
  function CloseFrom(s: string, from: nat): (j: nat)
    requires from <= |s|
    ensures from <= j <= |s|
    ensures forall m :: from <= m < j ==> s[m] != '>'
    ensures j < |s| ==> s[j] == '>'
    decreases |s| - from
  {
    if from == |s| || s[from] == '>' then from else CloseFrom(s, from + 1)
  }

  /** A tag: `<`, anything but `>`, then `>`. */
  predicate IsTag(t: string)
  {
    |t| >= 2 && t[0] == '<' && t[|t| - 1] == '>'
    && forall m :: 1 <= m < |t| - 1 ==> t[m] != '>'
  }

  /** `tag_re.sub("", text)`: scanning left to right, a `<` that has a `>` after
      it starts a tag, which is dropped up to and including that `>`; any other
      character is kept. */
  function StripTags(s: string): (r: string)
    ensures |r| <= |s|
    decreases |s|
  {
    if s == [] then []
    else
      var close := CloseFrom(s, 1);
      if s[0] == '<' && close < |s| then StripTags(s[close + 1..])
      else [s[0]] + StripTags(s[1..])
  }

  /** The result has no tag left in it, it is the text itself exactly when the
      text has no tag, otherwise it is strictly shorter, and it only holds
      characters of the text. */
  lemma {:induction false} StripTagsClean(s: string)
    ensures TagFree(StripTags(s))
    ensures TagFree(s) ==> StripTags(s) == s
    ensures !TagFree(s) ==> |StripTags(s)| < |s|
    ensures multiset(StripTags(s)) <= multiset(s)
    decreases |s|
  {
    if s != [] {
      var close := CloseFrom(s, 1);
      if s[0] == '<' && close < |s| {
        StripTagsClean(s[close + 1..]);
        assert !TagFree(s) by {
          assert s[0] == '<' && s[close] == '>';
        }
        assert s == s[..close + 1] + s[close + 1..];
      } else {
        var rest := StripTags(s[1..]);
        StripTagsClean(s[1..]);
        assert s == [s[0]] + s[1..];
        KeepFirst(s, rest);
      }
    }
  }

  /** Stripping twice is stripping once. */
  lemma {:induction false} StripTagsIdempotent(s: string)
    ensures StripTags(StripTags(s)) == StripTags(s)
  {
    StripTagsClean(s);
    StripTagsClean(StripTags(s));
  }

  /** The step of `StripTags` that keeps the first character: the facts its
      contract needs about `[s[0]] + rest`. */
  lemma {:induction false} KeepFirst(s: string, rest: string)
    requires s != [] && (s[0] == '<' ==> CloseFrom(s, 1) == |s|)
    requires TagFree(rest)
    requires TagFree(s[1..]) ==> rest == s[1..]
    requires !TagFree(s[1..]) ==> |rest| < |s| - 1
    ensures TagFree([s[0]] + rest)
    ensures TagFree(s) ==> [s[0]] + rest == s
    ensures !TagFree(s) ==> |rest| < |s| - 1
  {
    var r := [s[0]] + rest;
    if s[0] == '<' {
      // no `>` after the first character, so none in the rest either
      assert forall m :: 1 <= m < |s| ==> s[m] != '>';
      assert TagFree(s[1..]) by {
        forall i, j | 0 <= i < j < |s[1..]|
          ensures s[1..][i] == '<' ==> s[1..][j] != '>'
        {
          assert s[1..][j] == s[j + 1];
        }
      }
      assert r == s;
      assert TagFree(s) by {
        forall i, j | 0 <= i < j < |s|
          ensures s[i] == '<' ==> s[j] != '>'
        {
          assert s[j] != '>';
        }
      }
    } else {
      assert TagFree(r) by {
        forall i, j | 0 <= i < j < |r| && r[i] == '<'
          ensures r[j] != '>'
        {
          assert i >= 1;
          assert r[i] == rest[i - 1] && r[j] == rest[j - 1];
        }
      }
      if TagFree(s) {
        assert TagFree(s[1..]) by {
          forall i, j | 0 <= i < j < |s[1..]| && s[1..][i] == '<'
            ensures s[1..][j] != '>'
          {
            assert s[1..][i] == s[i + 1] && s[1..][j] == s[j + 1];
          }
        }
      } else {
        assert !TagFree(s[1..]) by {
          var i, j :| 0 <= i < j < |s| && s[i] == '<' && s[j] == '>';
          assert i >= 1;
          assert s[1..][i - 1] == '<' && s[1..][j - 1] == '>';
        }
      }
    }
  }

  /** A tag at the front is dropped. */
  lemma {:induction false} StripLeadingTag(t: string, rest: string)
    requires IsTag(t)
    ensures StripTags(t + rest) == StripTags(rest)
  {
    var s := t + rest;
    assert s[0] == '<';
    assert forall m :: 1 <= m < |t| - 1 ==> s[m] != '>';
    assert s[|t| - 1] == '>';
    CloseFromFirst(s, 1, |t| - 1);
    assert s[|t|..] == rest;
  }

  /** The scan for `>` stops at the first one. */
  lemma {:induction false} CloseFromFirst(s: string, from: nat, j: nat)
    requires from <= j < |s| && s[j] == '>'
    requires forall m :: from <= m < j ==> s[m] != '>'
    ensures CloseFrom(s, from) == j
    decreases j - from
  {
    if from < j {
      CloseFromFirst(s, from + 1, j);
    }
  }

  /** A character other than `<` at the front is kept. */
  lemma KeepCons(c: char, u: string)
    requires c != '<'
    ensures StripTags([c] + u) == [c] + StripTags(u)
  {
    assert ([c] + u)[1..] == u;
  }

  /** Text without `<` in front of the rest is kept as it is. */
  lemma {:induction false} StripLeadingPlain(p: string, rest: string)
    requires forall m :: 0 <= m < |p| ==> p[m] != '<'
    ensures StripTags(p + rest) == p + StripTags(rest)
    decreases |p|
  {
    if p != [] {
      assert p + rest == [p[0]] + (p[1..] + rest);
      KeepCons(p[0], p[1..] + rest);
      StripLeadingPlain(p[1..], rest);
      Regroup(p, StripTags(rest));
    } else {
      assert p + rest == rest;
    }
  }

  lemma Regroup(p: string, x: string)
    requires p != []
    ensures [p[0]] + (p[1..] + x) == p + x
  {
    assert p == [p[0]] + p[1..];
  }

  /** An element with plain text between its two tags strips to that text. */
  lemma {:induction false} StripElement(open: string, body: string, close: string)
    requires IsTag(open) && IsTag(close)
    requires forall m :: 0 <= m < |body| ==> body[m] != '<'
    ensures StripTags(open + (body + close)) == body
  {
    StripLeadingTag(open, body + close);
    StripLeadingPlain(body, close);
    StripLeadingTag(close, []);
    assert close + [] == close;
    assert StripTags([]) == [];
    assert body + [] == body;
  }

  /** The test of `openai_strip_tags`: a paragraph element loses its tags. */
  lemma StripParagraph(text: string)
    requires text == "<p>Hello world</p>"
    ensures StripTags(text) == "Hello world"
  {
    var open, body, close := "<p>", "Hello world", "</p>";
    assert text == open + (body + close);
    assert IsTag(open) && IsTag(close);
    assert forall m :: 0 <= m < |body| ==> body[m] != '<';
    StripElement(open, body, close);
  }

  /** The test of `openai_strip_tags`: text without tags is left alone. */
  lemma StripPlain(text: string)
    requires text == "Hello world"
    ensures StripTags(text) == "Hello world"
  {
    assert forall m :: 0 <= m < |text| ==> text[m] != '<';
    StripLeadingPlain(text, []);
    assert text + [] == text;
  }
}
