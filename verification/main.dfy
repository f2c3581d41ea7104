/** The command-line front end's question about which directories to watch, with the two
    answers typed at the prompts passed in as strings. */
module Cli {
  import opened Wrappers
  import opened Strings
  import opened Paths

  /** The first answer asks for the default directories: empty, "y" or "yes", in any case
      and with surrounding whitespace. */
  predicate AcceptsDefaults(answer: string): (accepts: bool)
    ensures accepts <==> DefaultSpelling(Strip(answer))
  {
    LowerIsDefaultAnswer(Strip(answer));
    Lower(Strip(answer)) in {"", "y", "yes"}
  }

  /** Empty, or "y" or "yes" with each letter in either case. */
  predicate DefaultSpelling(s: string)
  {
    || |s| == 0
    || (|s| == 1 && s[0] in "yY")
    || (|s| == 3 && s[0] in "yY" && s[1] in "eE" && s[2] in "sS")
  }

  /** The lower-cased answer is one of the accepted ones exactly when the answer spells it
      in some mix of cases. */
  lemma LowerIsDefaultAnswer(s: string)
    ensures Lower(s) in {"", "y", "yes"} <==> DefaultSpelling(s)
  {
    var l := Lower(s);
    if |s| == 1 {
      assert l == "y" <==> l[0] == 'y';
    } else if |s| == 3 {
      assert l == "yes" <==> l[0] == 'y' && l[1] == 'e' && l[2] == 's';
    }
  }

  /** `[d.strip() for d in pieces if d.strip()]`: the stripped pieces that are not blank,
      in their original order. */
  function NonBlankPieces(pieces: seq<string>): (kept: seq<string>)
    ensures |kept| <= |pieces|
    ensures forall k :: 0 <= k < |kept| ==> kept[k] != ""
  {
    if pieces == [] then [] else KeptPiece(pieces[0]) + NonBlankPieces(pieces[1..])
  }

  /** What the comprehension keeps of one piece: its stripped form, unless that is empty. */
  function KeptPiece(piece: string): (kept: seq<string>)
    ensures kept == [] || kept == [Strip(piece)]
  {
    var s := Strip(piece);
    if s != "" then [s] else []
  }

  /** The kept strings are exactly the non-empty stripped forms of the pieces. */
  lemma {:induction false} NonBlankPiecesMembers(pieces: seq<string>, s: string)
    ensures s in NonBlankPieces(pieces) <==> s != "" && exists k :: 0 <= k < |pieces| && Strip(pieces[k]) == s
  {
    if pieces != [] {
      var rest := pieces[1..];
      NonBlankPiecesMembers(rest, s);
      assert s in KeptPiece(pieces[0]) <==> s != "" && Strip(pieces[0]) == s;
      if exists k :: 0 <= k < |rest| && Strip(rest[k]) == s {
        var k :| 0 <= k < |rest| && Strip(rest[k]) == s;
        assert Strip(pieces[k + 1]) == s;
      }
      if exists k :: 0 <= k < |pieces| && Strip(pieces[k]) == s {
        var k :| 0 <= k < |pieces| && Strip(pieces[k]) == s;
        if k > 0 {
          assert Strip(rest[k - 1]) == s;
        }
      }
    }
  }

  /** Keeping the non-blank pieces respects order: it works piece by piece, left to right. */
  lemma {:induction false} NonBlankPiecesAppend(a: seq<string>, b: seq<string>)
    ensures NonBlankPieces(a + b) == NonBlankPieces(a) + NonBlankPieces(b)
  {
    if a != [] {
      assert (a + b)[0] == a[0];
      assert (a + b)[1..] == a[1..] + b;
      NonBlankPiecesAppend(a[1..], b);
    } else {
      assert a + b == b;
    }
  }

  /** Nothing is kept exactly when every piece is whitespace only. */
  lemma {:induction false} NonBlankPiecesEmpty(pieces: seq<string>)
    ensures NonBlankPieces(pieces) == [] <==> forall k :: 0 <= k < |pieces| ==> Strip(pieces[k]) == ""
  {
    if pieces != [] {
      NonBlankPiecesEmpty(pieces[1..]);
      assert forall k :: 1 <= k < |pieces| ==> pieces[k] == pieces[1..][k - 1];
    }
  }

  /** `Path(s)` for each string. */
  function ToPaths(strs: seq<string>): (paths: seq<Path>)
    ensures |paths| == |strs| && forall k :: 0 <= k < |paths| ==> paths[k] == Parse(strs[k])
  {
    seq(|strs|, k requires 0 <= k < |strs| => Parse(strs[k]))
  }

  /** `get_user_directories`: `None` (use the configured defaults) when the first answer
      accepts them, or when the comma-separated second answer holds no non-blank piece;
      otherwise the paths of the non-blank pieces, stripped, in order. */
  function UserDirectories(answer: string, dirsInput: string): (dirs: Option<seq<Path>>)
    ensures AcceptsDefaults(answer) ==> dirs == None
    ensures !AcceptsDefaults(answer) ==>
              (dirs == None <==> forall p :: p in Split(Strip(dirsInput), ',') ==> Strip(p) == "")
    ensures dirs.Some? ==> |dirs.value| > 0 && forall k :: 0 <= k < |dirs.value| ==> WellFormed(dirs.value[k])
  {
    if AcceptsDefaults(answer) then None
    else
      var pieces := Split(Strip(dirsInput), ',');
      NonBlankPiecesEmpty(pieces);
      var dirs := ToPaths(NonBlankPieces(pieces));
      if dirs == [] then None else Some(dirs)
  }

  /** The directories come from the non-blank pieces of the second answer, one path each, in
      the order typed; none is made from an empty string. */
  lemma UserDirectoriesPieces(answer: string, dirsInput: string)
    requires UserDirectories(answer, dirsInput).Some?
    ensures var kept := NonBlankPieces(Split(Strip(dirsInput), ','));
            && |UserDirectories(answer, dirsInput).value| == |kept|
            && forall k :: 0 <= k < |kept| ==>
                 kept[k] != "" && UserDirectories(answer, dirsInput).value[k] == Parse(kept[k])
  {
  }

  /** When the first answer accepts the defaults, the second one is never read. */
  lemma DefaultsIgnoreSecondAnswer(answer: string, dirsInput: string, otherInput: string)
    requires AcceptsDefaults(answer)
    ensures UserDirectories(answer, dirsInput) == UserDirectories(answer, otherInput)
  {
  }
}
