/** services/orders-svc/cbwatch.go: the projected flag file, its decoding, and the watcher that keeps paused in step. */
module FlagFile {
  import opened Options

  /** unicode.IsSpace */
  predicate IsSpace(c: char) {
    || '\t' <= c <= '\r' || c == ' ' || c == '\U{85}' || c == '\U{A0}' || c == '\U{1680}' || c == '\U{2028}'
    || c == '\U{2029}' || c == '\U{202F}' || c == '\U{205F}' || c == '\U{3000}'
    || '\U{2000}' <= c <= '\U{200A}'
  }

  function TrimLeft(s: string): string {
    if s != [] && IsSpace(s[0]) then TrimLeft(s[1..]) else s
  }

  function TrimRight(s: string): string {
    if s != [] && IsSpace(s[|s| - 1]) then TrimRight(s[..|s| - 1]) else s
  }

  function TrimSpace(s: string): string {
    TrimRight(TrimLeft(s))
  }

  /** strings.EqualFold(s, "true"): no letter outside ASCII folds to one of these four. */
  predicate IsTrue(s: string) {
    |s| == 4 && s[0] in {'t', 'T'} && s[1] in {'r', 'R'} && s[2] in {'u', 'U'} && s[3] in {'e', 'E'}
  }

  /** What one read of the file means for publishing; None is any error, a missing file included. */
  predicate Paused(file: Option<string>) {
    file.Some? && !IsTrue(TrimSpace(file.value))
  }

  predicate AllSpace(s: string) {
    forall c | c in s :: IsSpace(c)
  }

  lemma {:induction false} TrimLeftSplits(s: string) returns (i: int)
    ensures 0 <= i <= |s| && AllSpace(s[..i]) && TrimLeft(s) == s[i..]
  {
    i := 0;
    if s != [] && IsSpace(s[0]) {
      var j := TrimLeftSplits(s[1..]);
      i := j + 1;
      assert s[1..][j..] == s[i..] && s[..i] == [s[0]] + s[1..][..j];
    }
  }

  lemma {:induction false} TrimRightSplits(s: string) returns (post: string)
    ensures AllSpace(post) && s == TrimRight(s) + post
  {
    if s != [] && IsSpace(s[|s| - 1]) {
      post := TrimRightSplits(s[..|s| - 1]);
      post := post + [s[|s| - 1]];
    } else {
      post := [];
    }
  }

  lemma {:induction false} TrimLeftOf(pre: string, core: string)
    requires AllSpace(pre) && core != [] && !IsSpace(core[0])
    ensures TrimLeft(pre + core) == core
    decreases pre
  {
    if pre == [] {
      assert pre + core == core;
    } else {
      assert (pre + core)[1..] == pre[1..] + core;
      TrimLeftOf(pre[1..], core);
    }
  }

  lemma {:induction false} TrimRightOf(core: string, post: string)
    requires AllSpace(post) && core != [] && !IsSpace(core[|core| - 1])
    ensures TrimRight(core + post) == core
    decreases post
  {
    if post == [] {
      assert core + post == core;
    } else {
      var n := |post| - 1;
      assert (core + post)[..|core| + n] == core + post[..n];
      TrimRightOf(core, post[..n]);
    }
  }

  /** The core of a trimmed string is the string between its spaces. */
  lemma TrimSplits(content: string) returns (pre: string, post: string)
    ensures AllSpace(pre) && AllSpace(post) && content == pre + TrimSpace(content) + post
  {
    var i := TrimLeftSplits(content);
    pre := content[..i];
    post := TrimRightSplits(TrimLeft(content));
    assert content == pre + TrimLeft(content);
    assert pre + (TrimSpace(content) + post) == pre + TrimSpace(content) + post;
  }

  lemma TrimOf(pre: string, word: string, post: string)
    requires AllSpace(pre) && AllSpace(post) && IsTrue(word)
    ensures TrimSpace(pre + word + post) == word
  {
    assert (word + post)[0] == word[0];
    TrimLeftOf(pre, word + post);
    assert pre + word + post == pre + (word + post);
    TrimRightOf(word, post);
  }

  lemma EnabledSplits(content: string) returns (pre: string, word: string, post: string)
    requires !Paused(Some(content))
    ensures content == pre + word + post && AllSpace(pre) && AllSpace(post) && IsTrue(word)
  {
    pre, post := TrimSplits(content);
    word := TrimSpace(content);
  }

  // ----- the same, character by character -----

  const WHITE_SPACE: set<char> := {
    '\t', '\n', '\U{0B}', '\U{0C}', '\r', ' ', '\U{85}', '\U{A0}', '\U{1680}',
    '\U{2000}', '\U{2001}', '\U{2002}', '\U{2003}', '\U{2004}', '\U{2005}', '\U{2006}', '\U{2007}', '\U{2008}', '\U{2009}',
    '\U{200A}', '\U{2028}', '\U{2029}', '\U{202F}', '\U{205F}', '\U{3000}'}

  function Lower(c: char): char {
    if 'A' <= c <= 'Z' then (c as int + 32) as char else c
  }

  function LowerCase(s: string): (r: string)
    ensures |r| == |s|
  {
    if s == "" then "" else LowerCase(s[..|s| - 1]) + [Lower(s[|s| - 1])]
  }

  predicate Blank(s: string) {
    forall c | c in s :: c in WHITE_SPACE
  }

  lemma SpaceIsListed(c: char)
    ensures IsSpace(c) <==> c in WHITE_SPACE
  {
  }

  lemma {:induction false} LowerCaseAt(s: string, i: nat)
    requires i < |s|
    ensures LowerCase(s)[i] == Lower(s[i])
  {
    if i < |s| - 1 {
      LowerCaseAt(s[..|s| - 1], i);
    }
  }

  lemma FoldsToTrue(s: string)
    ensures IsTrue(s) <==> LowerCase(s) == "true"
  {
    forall i: nat | i < |s|
      ensures LowerCase(s)[i] == Lower(s[i])
    {
      LowerCaseAt(s, i);
    }
    if |s| == 4 {
      assert LowerCase(s) == "true" <==> forall i: nat | i < 4 :: LowerCase(s)[i] == "true"[i];
    }
  }

  lemma BlankIsSpace(s: string)
    ensures Blank(s) <==> AllSpace(s)
  {
    forall c
      ensures IsSpace(c) <==> c in WHITE_SPACE
    {
      SpaceIsListed(c);
    }
  }

  /** A readable file lets publishing go on exactly when, between white space, it is a word whose lower case is true. */
  lemma EnabledIff(content: string)
    ensures !Paused(Some(content))
            <==> exists pre, word, post ::
                   content == pre + word + post && Blank(pre) && Blank(post) && LowerCase(word) == "true"
  {
    if !Paused(Some(content)) {
      var pre, word, post := EnabledSplits(content);
      BlankIsSpace(pre);
      BlankIsSpace(post);
      FoldsToTrue(word);
    }
    if pre, word, post :| content == pre + word + post && Blank(pre) && Blank(post) && LowerCase(word) == "true" {
      BlankIsSpace(pre);
      BlankIsSpace(post);
      FoldsToTrue(word);
      TrimOf(pre, word, post);
    }
  }

  /** The shipped value enables, with or without a final newline; the remedy's value pauses; a missing file enables. */
  lemma KnownValues()
    ensures !Paused(Some("true")) && !Paused(Some("true\n")) && !Paused(Some("True")) && !Paused(None)
    ensures Paused(Some("false")) && Paused(Some("")) && Paused(Some("truth"))
  {
    TrimOf("", "true", "");
    assert "" + "true" + "" == "true";
    TrimOf("", "true", "\n");
    assert "" + "true" + "\n" == "true\n";
    TrimOf("", "True", "");
    assert "" + "True" + "" == "True";
    assert TrimLeft("false") == "false" && TrimRight("false") == "false";
    assert TrimLeft("truth") == "truth" && TrimRight("truth") == "truth";
  }

  // ----- the watcher -----

  /** One turn of the select loop, with the file as a read in that turn finds it. */
  datatype Signal = Tick(file: Option<string>) | Event(file: Option<string>) | WatchError | Stop

  predicate IsRead(x: Signal) {
    x.Tick? || x.Event?
  }

  /** The content found by the latest read, first being the one before the loop. */
  function LatestRead(first: Option<string>, signals: seq<Signal>): Option<string>
    decreases signals
  {
    if signals == [] then first
    else
      match signals[0]
      case Tick(file) => LatestRead(file, signals[1..])
      case Event(file) => LatestRead(file, signals[1..])
      case WatchError => LatestRead(first, signals[1..])
      case Stop => first
  }

  class Watcher {
    var paused: bool

    constructor ()
      ensures !paused
    {
      paused := false;
    }

    method Read(file: Option<string>)
      modifies this
      ensures paused == Paused(file)
    {
      match file {
        case None => paused := false;
        case Some(content) =>
          var enabled := IsTrue(TrimSpace(content));
          paused := !enabled;
      }
    }

    /** From its first read on, for every sequence of turns, paused is the decoding of the latest read; if the
        watch cannot be set up, that stays the first one. */
    method WatchCircuitBreak(first: Option<string>, setupFails: bool, signals: seq<Signal>)
      modifies this
      ensures paused == Paused(LatestRead(first, if setupFails then [] else signals))
    {
      Read(first);
      if setupFails {
        return;
      }
      ghost var latest := first;
      var i := 0;
      while i < |signals|
        invariant 0 <= i <= |signals|
        invariant paused == Paused(latest)
        invariant LatestRead(first, signals) == LatestRead(latest, signals[i..])
      {
        match signals[i] {
          case Stop => return;
          case Tick(file) => Read(file); latest := file;
          case Event(file) => Read(file); latest := file;
          case WatchError =>
        }
        assert signals[i..][1..] == signals[i + 1..];
        i := i + 1;
      }
    }
  }

  /** Which read counts: the last tick or event before the loop ends. */
  lemma {:induction false} LatestReadIsLast(first: Option<string>, signals: seq<Signal>, i: int)
    requires 0 <= i < |signals| && IsRead(signals[i]) && forall j | 0 <= j < i :: !signals[j].Stop?
    requires forall j | i < j < |signals| && IsRead(signals[j]) :: exists k :: i < k < j && signals[k].Stop?
    ensures LatestRead(first, signals) == signals[i].file
    decreases signals
  {
    var rest := signals[1..];
    if i == 0 {
      forall j | 0 <= j < |rest| && IsRead(rest[j])
        ensures exists k :: 0 <= k < j && rest[k].Stop?
      {
        assert IsRead(signals[j + 1]);
        var k :| 0 < k < j + 1 && signals[k].Stop?;
        assert rest[k - 1].Stop?;
      }
      NoMoreReads(signals[0].file, rest);
    } else {
      forall j | i - 1 < j < |rest| && IsRead(rest[j])
        ensures exists k :: i - 1 < k < j && rest[k].Stop?
      {
        assert IsRead(signals[j + 1]);
        var k :| i < k < j + 1 && signals[k].Stop?;
        assert rest[k - 1].Stop?;
      }
      LatestReadIsLast(if IsRead(signals[0]) then signals[0].file else first, rest, i - 1);
    }
  }

  lemma {:induction false} NoMoreReads(first: Option<string>, signals: seq<Signal>)
    requires forall j | 0 <= j < |signals| && IsRead(signals[j]) :: exists k :: 0 <= k < j && signals[k].Stop?
    ensures LatestRead(first, signals) == first
  {
    if signals != [] && !signals[0].Stop? {
      var rest := signals[1..];
      assert !IsRead(signals[0]);
      forall j | 0 <= j < |rest| && IsRead(rest[j])
        ensures exists k :: 0 <= k < j && rest[k].Stop?
      {
        assert IsRead(signals[j + 1]);
        var k :| 0 <= k < j + 1 && signals[k].Stop?;
        assert rest[k - 1].Stop?;
      }
      NoMoreReads(first, rest);
    }
  }
}
