/**
 * The reconstruction-coefficient file ("COSY matrix") and its line protocol.
 *
 * A file is the sequence of its newline-terminated lines (None when it cannot
 * be opened). `getline(...).good()` is true exactly when another terminated
 * line exists; a last line without a newline sets the end-of-file bit, so it
 * reads as "not good" and is treated here as end of file.
 *
 * The numeric scan of one term line (a C `sscanf`) is the parameter `parse`.
 */
module ReconCoefficients {
  import opened Wrappers

  /** Coeff[0..3]: one coefficient per output quantity. */
  type Coeffs = s: seq<real> | |s| == 4 witness [0.0, 0.0, 0.0, 0.0]
  /** Exp[0..4]: one single-digit exponent per focal-plane input. */
  type Exps = s: seq<nat> | |s| == 5 witness [0, 0, 0, 0, 0]

  /** One term of the transport polynomial (the `reconTerm` record). */
  datatype ReconTerm = ReconTerm(coeff: Coeffs, exp: Exps)

  /** What the loader leaves behind: its status and the terms it pushed. */
  datatype LoadResult = LoadResult(status: Status, terms: seq<ReconTerm>)

  /** A header line: it starts with '!' (an empty line does not). */
  predicate IsComment(line: string) {
    |line| > 0 && line[0] == '!'
  }

  /** A section marker: its first four characters are " ---". */
  predicate IsMarker(line: string) {
    |line| >= 4 && line[..4] == " ---"
  }

  /** Index of the first line at or after `i` that is not a comment, or |lines|. */
  function FirstNonComment(lines: seq<string>, i: nat): (k: nat)
    requires i <= |lines|
    ensures i <= k <= |lines|
    ensures k < |lines| ==> !IsComment(lines[k])
    ensures forall j :: i <= j < k ==> IsComment(lines[j])
    decreases |lines| - i
  {
    if i == |lines| || !IsComment(lines[i]) then i else FirstNonComment(lines, i + 1)
  }

  /** Index of the first marker line at or after `i`, or |lines|. */
  function NextMarker(lines: seq<string>, i: nat): (k: nat)
    requires i <= |lines|
    ensures i <= k <= |lines|
    ensures k < |lines| ==> IsMarker(lines[k])
    ensures forall j :: i <= j < k ==> !IsMarker(lines[j])
    decreases |lines| - i
  {
    if i == |lines| || IsMarker(lines[i]) then i else NextMarker(lines, i + 1)
  }

  /** The terms scanned from lines[lo..hi], in file order. */
  function Parsed(lines: seq<string>, parse: string -> ReconTerm, lo: nat, hi: nat): seq<ReconTerm>
    requires lo <= hi <= |lines|
  {
    seq(hi - lo, k requires 0 <= k < hi - lo => parse(lines[lo + k]))
  }

  /**
   * What reading the file produces: skip the comment header, skip the rotation
   * section up to the first marker, then turn every line up to the next marker
   * into one term. Running out of lines first is an InitError that keeps the
   * terms already pushed.
   */
  function LoadSpec(file: Option<seq<string>>, parse: string -> ReconTerm): LoadResult
  {
    match file
    case None => LoadResult(InitError, [])
    case Some(lines) =>
      var m := NextMarker(lines, FirstNonComment(lines, 0));
      if m == |lines| then LoadResult(InitError, [])
      else
        var e := NextMarker(lines, m + 1);
        LoadResult(if e < |lines| then OK else InitError, Parsed(lines, parse, m + 1, e))
  }

  lemma {:induction false} FirstNonCommentAt(lines: seq<string>, i: nat, k: nat)
    requires i <= k <= |lines|
    requires forall j :: i <= j < k ==> IsComment(lines[j])
    requires k < |lines| ==> !IsComment(lines[k])
    ensures FirstNonComment(lines, i) == k
    decreases k - i
  {
    if i < k {
      FirstNonCommentAt(lines, i + 1, k);
    }
  }

  lemma {:induction false} NextMarkerAt(lines: seq<string>, i: nat, k: nat)
    requires i <= k <= |lines|
    requires forall j :: i <= j < k ==> !IsMarker(lines[j])
    requires k < |lines| ==> IsMarker(lines[k])
    ensures NextMarker(lines, i) == k
    decreases k - i
  {
    if i < k {
      NextMarkerAt(lines, i + 1, k);
    }
  }

  /**
   * First loop of the loader: `getline` while the current line is a comment.
   * `line` starts as "!", so at least one line is read.
   */
  method SkipHeader(lines: seq<string>) returns (good: bool, line: string, cursor: nat)
    ensures cursor <= |lines|
    ensures good ==> 1 <= cursor && line == lines[cursor - 1]
    ensures (if good then cursor - 1 else |lines|) == FirstNonComment(lines, 0)
    ensures !good ==> cursor == |lines|
  {
    var n := |lines|;
    cursor, line, good := 0, "!", true;
    while good && IsComment(line)
      invariant cursor <= n
      invariant good ==> if cursor == 0 then line == "!" else line == lines[cursor - 1]
      invariant forall j :: 0 <= j < cursor - 1 ==> IsComment(lines[j])
      invariant !good ==> cursor == n && (n > 0 ==> IsComment(lines[n - 1]))
      decreases n - cursor, good
    {
      if cursor < n {
        line, cursor := lines[cursor], cursor + 1;
      } else {
        good := false;
      }
    }
    FirstNonCommentAt(lines, 0, if good then cursor - 1 else n);
  }

  /** Second loop: `getline` until the current line is a marker (the rotation section). */
  method SkipToMarker(lines: seq<string>, good0: bool, line0: string, cursor0: nat)
    returns (good: bool, line: string, cursor: nat)
    requires cursor0 <= |lines|
    requires good0 ==> 1 <= cursor0 && line0 == lines[cursor0 - 1]
    requires !good0 ==> cursor0 == |lines|
    ensures cursor <= |lines|
    ensures good ==> 1 <= cursor && line == lines[cursor - 1]
    ensures !good ==> cursor == |lines|
    ensures var s := if good0 then cursor0 - 1 else |lines|;
            (if good then cursor - 1 else |lines|) == NextMarker(lines, s)
  {
    var n := |lines|;
    ghost var s := if good0 then cursor0 - 1 else n;
    good, line, cursor := good0, line0, cursor0;
    while good && !IsMarker(line)
      invariant s <= cursor <= n
      invariant good ==> cursor >= 1 && s <= cursor - 1 && line == lines[cursor - 1]
      invariant forall j :: s <= j < cursor - 1 ==> !IsMarker(lines[j])
      invariant !good ==> cursor == n && forall j :: s <= j < n ==> !IsMarker(lines[j])
      decreases n - cursor, good
    {
      if cursor < n {
        line, cursor := lines[cursor], cursor + 1;
      } else {
        good := false;
      }
    }
    NextMarkerAt(lines, s, if good then cursor - 1 else n);
  }

  /**
   * Third loop: read the line after the marker, then push one term per line
   * until the next marker; `good` is false when the lines ran out first.
   */
  method ReadTerms(lines: seq<string>, m: nat, parse: string -> ReconTerm)
    returns (good: bool, terms: seq<ReconTerm>)
    requires m < |lines|
    ensures var e := NextMarker(lines, m + 1);
            good == (e < |lines|) && terms == Parsed(lines, parse, m + 1, e)
  {
    var n := |lines|;
    var line := " ";
    var cursor := m + 1;
    good := cursor < n;
    if good {
      line, cursor := lines[cursor], cursor + 1;
    }
    terms := [];
    while good && !IsMarker(line)
      invariant m + 1 <= cursor <= n
      invariant good ==> line == lines[cursor - 1] && cursor - 1 == m + 1 + |terms|
      invariant !good ==> cursor == n && m + 1 + |terms| == n
      invariant forall k :: 0 <= k < |terms| ==> terms[k] == parse(lines[m + 1 + k])
      invariant forall j :: m + 1 <= j < m + 1 + |terms| ==> !IsMarker(lines[j])
      decreases n - cursor, good
    {
      terms := terms + [parse(line)];
      if cursor < n {
        line, cursor := lines[cursor], cursor + 1;
      } else {
        good := false;
      }
    }
    NextMarkerAt(lines, m + 1, m + 1 + |terms|);
    assert terms == Parsed(lines, parse, m + 1, m + 1 + |terms|);
  }

  /**
   * The loader (the line loop of ReadDatabase): the three `while (good && ...)`
   * loops over `getline`, in the source's order.
   */
  method ReadReconCoefficients(file: Option<seq<string>>, parse: string -> ReconTerm)
    returns (r: LoadResult)
    ensures r == LoadSpec(file, parse)
  {
    if file.None? {
      return LoadResult(InitError, []);
    }
    var lines := file.value;
    var good, line, cursor := SkipHeader(lines);
    good, line, cursor := SkipToMarker(lines, good, line, cursor);
    if !good {
      // The getline after the rotation section fails too: no term is pushed.
      return LoadResult(InitError, []);
    }
    var terms;
    good, terms := ReadTerms(lines, cursor - 1, parse);
    r := LoadResult(if good then OK else InitError, terms);
  }

  /** Comment lines are never markers, so skipping them never hides a marker. */
  lemma {:induction false} CommentsDoNotHideMarkers(lines: seq<string>, i: nat)
    requires i <= |lines|
    ensures NextMarker(lines, FirstNonComment(lines, i)) == NextMarker(lines, i)
    decreases |lines| - i
  {
    if i < |lines| && IsComment(lines[i]) {
      assert !IsMarker(lines[i]);
      CommentsDoNotHideMarkers(lines, i + 1);
    }
  }

  /** Loading succeeds exactly when the file opens and holds at least two marker lines. */
  lemma LoadSucceedsIff(file: Option<seq<string>>, parse: string -> ReconTerm)
    ensures LoadSpec(file, parse).status == OK <==>
      file.Some? &&
      exists m, e :: 0 <= m < e < |file.value| && IsMarker(file.value[m]) && IsMarker(file.value[e])
  {
    if file.Some? {
      var lines := file.value;
      CommentsDoNotHideMarkers(lines, 0);
      var m := NextMarker(lines, 0);
      if exists m', e' :: 0 <= m' < e' < |lines| && IsMarker(lines[m']) && IsMarker(lines[e']) {
        var m', e' :| 0 <= m' < e' < |lines| && IsMarker(lines[m']) && IsMarker(lines[e']);
        assert m <= m';
        assert NextMarker(lines, m + 1) <= e';
      }
    }
  }

  /**
   * On success the terms are exactly the lines strictly between the first and
   * the second marker, one term per line, in file order.
   */
  lemma LoadedTermsBetweenMarkers(lines: seq<string>, parse: string -> ReconTerm)
    requires LoadSpec(Some(lines), parse).status == OK
    ensures var m := NextMarker(lines, 0);
            var e := NextMarker(lines, m + 1);
            var terms := LoadSpec(Some(lines), parse).terms;
            m < e < |lines| && IsMarker(lines[m]) && IsMarker(lines[e]) &&
            |terms| == e - m - 1 &&
            forall k :: 0 <= k < |terms| ==> terms[k] == parse(lines[m + 1 + k])
  {
    CommentsDoNotHideMarkers(lines, 0);
  }

  /**
   * A well-formed file: a preamble (comment header and rotation section) with
   * no marker, a marker, the term lines, a closing marker, then anything.
   * It loads to exactly one term per term line.
   */
  lemma LoadWellFormedFile(preamble: seq<string>, open: string, body: seq<string>,
                           close: string, rest: seq<string>, parse: string -> ReconTerm)
    requires forall j :: 0 <= j < |preamble| ==> !IsMarker(preamble[j])
    requires forall j :: 0 <= j < |body| ==> !IsMarker(body[j])
    requires IsMarker(open) && IsMarker(close)
    ensures var r := LoadSpec(Some(preamble + [open] + body + [close] + rest), parse);
            r.status == OK && |r.terms| == |body| &&
            forall k :: 0 <= k < |body| ==> r.terms[k] == parse(body[k])
  {
    var lines := preamble + [open] + body + [close] + rest;
    var m := |preamble|;
    var e := |preamble| + 1 + |body|;
    forall j | 0 <= j < m
      ensures !IsMarker(lines[j])
    {
      assert lines[j] == preamble[j];
    }
    forall j | m < j < e
      ensures !IsMarker(lines[j]) && lines[j] == body[j - m - 1]
    {
      assert lines[j] == body[j - m - 1];
    }
    assert lines[m] == open && lines[e] == close;
    LoadBetweenMarkers(lines, parse, m, e);
  }

  /** Markers at m and e, none before m or between them: the load succeeds with the lines in between. */
  lemma LoadBetweenMarkers(lines: seq<string>, parse: string -> ReconTerm, m: nat, e: nat)
    requires m < e < |lines|
    requires forall j :: 0 <= j < m ==> !IsMarker(lines[j])
    requires forall j :: m < j < e ==> !IsMarker(lines[j])
    requires IsMarker(lines[m]) && IsMarker(lines[e])
    ensures LoadSpec(Some(lines), parse) == LoadResult(OK, Parsed(lines, parse, m + 1, e))
  {
    CommentsDoNotHideMarkers(lines, 0);
    NextMarkerAt(lines, 0, m);
    NextMarkerAt(lines, m + 1, e);
  }

  /**
   * A file that opens but has only one marker: InitError, and the terms pushed
   * before end of file (every line after the marker) stay behind.
   */
  lemma TruncatedFileKeepsPartialTerms(preamble: seq<string>, open: string, body: seq<string>,
                                       parse: string -> ReconTerm)
    requires forall j :: 0 <= j < |preamble| ==> !IsMarker(preamble[j])
    requires forall j :: 0 <= j < |body| ==> !IsMarker(body[j])
    requires IsMarker(open)
    ensures var r := LoadSpec(Some(preamble + [open] + body), parse);
            r.status == InitError && |r.terms| == |body| &&
            forall k :: 0 <= k < |body| ==> r.terms[k] == parse(body[k])
  {
    var lines := preamble + [open] + body;
    var m := |preamble|;
    CommentsDoNotHideMarkers(lines, 0);
    NextMarkerAt(lines, 0, m);
    NextMarkerAt(lines, m + 1, |lines|);
    assert forall k :: 0 <= k < |body| ==> lines[m + 1 + k] == body[k];
  }
}
