/** What `parseAddressList` computes, in both of its copies: split the header value on
    every comma (`strings.Split`) and trim each piece (`strings.TrimSpace`); the exactly
    empty string is the one input answered with no address at all. */
module AddressList {
  import opened Strings

  /** The number of commas in `s`. */
  function Commas(s: string): nat {
    if s == [] then 0 else (if s[0] == ',' then 1 else 0) + Commas(s[1..])
  }

  /** `strings.Split(s, ",")`: the pieces between commas, in order; there is always one
      piece more than there are commas, and no piece holds a comma. */
  function Split(s: string): (pieces: seq<string>)
    ensures |pieces| == Commas(s) + 1
    ensures forall i :: 0 <= i < |pieces| ==> ',' !in pieces[i]
  {
    if s == [] then [""]
    else
      var rest := Split(s[1..]);
      if s[0] == ',' then [""] + rest
      else [[s[0]] + rest[0]] + rest[1..]
  }

  /** `strings.Join(pieces, ",")`, the inverse of Split. */
  function Join(pieces: seq<string>): string
    requires |pieces| >= 1
  {
    if |pieces| == 1 then pieces[0] else pieces[0] + "," + Join(pieces[1..])
  }

  /** Splitting loses nothing: joining the pieces with commas gives back the input. */
  lemma {:induction false} JoinSplit(s: string)
    ensures Join(Split(s)) == s
  {
    if s != [] {
      var rest := Split(s[1..]);
      JoinSplit(s[1..]);
      if s[0] == ',' {
        assert Split(s) == [""] + rest;
        assert Join(Split(s)) == "" + "," + Join(rest);
        assert s == [','] + s[1..];
      } else if |rest| == 1 {
        assert Split(s) == [[s[0]] + rest[0]];
        assert s == [s[0]] + s[1..];
      } else {
        var pieces := Split(s);
        assert pieces == [[s[0]] + rest[0]] + rest[1..];
        assert pieces[1..] == rest[1..];
        assert Join(pieces) == ([s[0]] + rest[0]) + "," + Join(rest[1..]);
        assert Join(rest) == rest[0] + "," + Join(rest[1..]);
        assert s == [s[0]] + s[1..];
      }
    }
  }

  /** A comma-free word followed by a comma splits off as the first piece. */
  lemma {:induction false} SplitAfterWord(w: string, t: string)
    requires ',' !in w
    ensures Split(w + "," + t) == [w] + Split(t)
    ensures Split(w) == [w]
  {
    if w != [] {
      SplitAfterWord(w[1..], t);
      assert (w + "," + t)[1..] == w[1..] + "," + t;
      assert w[0] != ',';
      assert [w[0]] + w[1..] == w;
    } else {
      assert w + "," + t == [','] + t;
      assert ([','] + t)[1..] == t;
    }
  }

  /** Splitting undoes joining, so Split and Join are inverse bijections between strings
      and non-empty lists of comma-free pieces. */
  lemma {:induction false} SplitJoin(pieces: seq<string>)
    requires |pieces| >= 1
    requires forall i :: 0 <= i < |pieces| ==> ',' !in pieces[i]
    ensures Split(Join(pieces)) == pieces
  {
    if |pieces| == 1 {
      SplitAfterWord(pieces[0], "");
    } else {
      SplitJoin(pieces[1..]);
      SplitAfterWord(pieces[0], Join(pieces[1..]));
      assert [pieces[0]] + pieces[1..] == pieces;
    }
  }

  /** The trimmed pieces, in order. */
  function TrimEach(pieces: seq<string>): (r: seq<string>)
    ensures |r| == |pieces|
    ensures forall i :: 0 <= i < |r| ==> r[i] == TrimSpace(pieces[i])
  {
    if pieces == [] then [] else [TrimSpace(pieces[0])] + TrimEach(pieces[1..])
  }

  /** The addresses `parseAddressList(raw)` produces, as plain strings. */
  function Parse(raw: string): (addresses: seq<string>)
    ensures addresses == [] <==> raw == ""
  {
    if raw == "" then [] else TrimEach(Split(raw))
  }

  /** The empty header gives no address; any other gives one address per comma plus one,
      the i-th being the i-th comma-separated piece trimmed of white space. Nothing is
      dropped: a blank piece gives an empty address. */
  lemma ParseShape(raw: string)
    ensures raw == "" ==> Parse(raw) == []
    ensures raw != "" ==> |Parse(raw)| == Commas(raw) + 1
    ensures raw != "" ==> forall i :: 0 <= i < |Parse(raw)| ==> Parse(raw)[i] == TrimSpace(Split(raw)[i])
  {
  }

  /** Every address comes out trimmed and comma-free. */
  lemma ParseTrimmed(raw: string)
    ensures forall i :: 0 <= i < |Parse(raw)| ==>
      ',' !in Parse(raw)[i] && TrimSpace(Parse(raw)[i]) == Parse(raw)[i]
  {
    var ps := Parse(raw);
    forall i | 0 <= i < |ps| ensures ',' !in ps[i] && TrimSpace(ps[i]) == ps[i] {
      var piece := Split(raw)[i];
      TrimSpaceIdempotent(piece);
      TrimSpaceIsSlice(piece);
      assert ps[i] == TrimSpace(piece);
    }
  }

  /** A header holding only white space still yields one (empty) address. */
  lemma BlankHeaderGivesOneEmptyAddress()
    ensures Parse(" ") == [""]
  {
    assert Split(" ") == [" "] by {
      assert Split(" "[1..]) == [""];
      assert [' '] + "" == " ";
    }
    assert TrimLeft(" ") == "" by {
      assert IsSpace(' ');
      assert TrimLeft(" "[1..]) == "";
    }
  }

  lemma SplitAdjacentCommas()
    ensures Split("a,,b") == ["a", "", "b"]
  {
    assert Split("b") == ["b"] by { assert Split("b"[1..]) == [""]; assert ['b'] + "" == "b"; }
    assert Split(",b") == ["", "b"] by { assert ",b"[1..] == "b"; }
    assert Split(",,b") == ["", "", "b"] by { assert ",,b"[1..] == ",b"; }
    assert "a,,b"[1..] == ",,b";
    assert ['a'] + "" == "a";
  }

  /** Two adjacent commas yield an empty address between the two neighbours. */
  lemma AdjacentCommasKeepEmptyAddress()
    ensures Parse("a,,b") == ["a", "", "b"]
  {
    SplitAdjacentCommas();
    assert !IsSpace('a') && !IsSpace('b');
    TrimSpaceFixes("a");
    TrimSpaceFixes("");
    TrimSpaceFixes("b");
    var r := TrimEach(["a", "", "b"]);
    assert r[0] == "a" && r[1] == "" && r[2] == "b";
  }
}
