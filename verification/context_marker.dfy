/** The marker detector of the hook: the source tests `^Conversation Context:`
    with the multiline flag, so `^` matches at the start of the text and right
    after any line terminator. `HasMarkerLine` states that; `HasContextMarker`
    walks the text line by line and is proved to agree with it. */
module ContextMarker {
  import opened Text

  /** The fixed line prefix that signals the context was supplied. */
  const Marker: string := "Conversation Context:"

  /** Index `i` is where a line begins. */
  predicate LineStart(s: string, i: nat)
    requires i <= |s|
  {
    i == 0 || IsLineTerminator(s[i - 1])
  }

  /** The marker begins a line at index `i`. */
  ghost predicate MarkerLineAt(s: string, i: nat) {
    i <= |s| && LineStart(s, i) && OccursAt(s, i, Marker)
  }

  /** The multiline-anchored expression finds a match somewhere in `s`. */
  ghost predicate HasMarkerLine(s: string) {
    exists i :: 0 <= i <= |s| && MarkerLineAt(s, i)
  }

  /** A text without line terminators has its marker line only at the very
      start: elsewhere on the line the marker does not count. */
  lemma SingleLineMarker(s: string)
    requires forall k :: 0 <= k < |s| ==> !IsLineTerminator(s[k])
    ensures HasMarkerLine(s) <==> OccursAt(s, 0, Marker)
  {
    if HasMarkerLine(s) {
      var i :| 0 <= i <= |s| && MarkerLineAt(s, i);
      assert i == 0;
    }
    assert MarkerLineAt(s, 0) <==> OccursAt(s, 0, Marker);
  }

  /** The index of the first line terminator at or after `from`, or `|s|`
      when the line runs to the end of the text. */
  function LineEnd(s: string, from: nat): (e: nat)
    requires from <= |s|
    ensures from <= e <= |s|
    ensures e == |s| || IsLineTerminator(s[e])
    ensures forall k :: from <= k < e ==> !IsLineTerminator(s[k])
    decreases |s| - from
  {
    if from == |s| || IsLineTerminator(s[from]) then from else LineEnd(s, from + 1)
  }

  /** Inside one line no index past its first is a line start. */
  lemma NoLineStartInside(s: string, start: nat, i: nat)
    requires start < i <= |s| && i <= LineEnd(s, start)
    ensures !LineStart(s, i)
  {
  }

  /** Checks the line that begins at `start`, then the lines after it. */
  function MarkerFromLine(s: string, start: nat): (found: bool)
    requires start <= |s| && LineStart(s, start)
    ensures found <==> exists i :: start <= i <= |s| && MarkerLineAt(s, i)
    decreases |s| - start
  {
    if OccursAt(s, start, Marker) then
      assert MarkerLineAt(s, start);
      true
    else
      var e := LineEnd(s, start);
      if e == |s| then
        assert forall i :: start < i <= |s| ==> !LineStart(s, i) by {
          forall i | start < i <= |s| { NoLineStartInside(s, start, i); }
        }
        false
      else
        assert forall i :: start < i <= e ==> !LineStart(s, i) by {
          forall i | start < i <= e { NoLineStartInside(s, start, i); }
        }
        MarkerFromLine(s, e + 1)
  }

  /** The marker predicate of the hook. */
  function HasContextMarker(s: string): (found: bool)
    ensures found <==> HasMarkerLine(s)
  {
    MarkerFromLine(s, 0)
  }
}
