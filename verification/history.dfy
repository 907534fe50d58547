/** The client's search history: most recent search first, no repeats,
    at most five entries. */
module SearchHistory {
  import opened Seqs

  /** Entries kept by `addToHistory`. */
  const HistoryLimit: int := 5

  /** The previous entries other than `text`, in their order. */
  function Others(prev: seq<string>, text: string): seq<string>
  {
    Filter(prev, (h: string) => h != text)
  }

  /** `addToHistory(text)`: `text` moves to the front, its older copies are
      dropped, and the list is cut to `HistoryLimit` entries. */
  function AddToHistory(prev: seq<string>, text: string): (h: seq<string>)
    ensures 1 <= |h| <= HistoryLimit
    ensures h[0] == text
    ensures forall i :: 1 <= i < |h| ==> h[i] != text
    ensures h[1..] <= Others(prev, text)
    ensures |h| == (if |Others(prev, text)| + 1 < HistoryLimit then |Others(prev, text)| + 1 else HistoryLimit)
  {
    Prefix([text] + Others(prev, text), HistoryLimit)
  }

  /** `clearHistory()`. */
  function ClearHistory(): (h: seq<string>)
    ensures |h| == 0
  {
    []
  }

  /** The entries kept after the new one appear in the previous history in the
      same relative order. */
  lemma RetainedKeepOrder(prev: seq<string>, text: string)
    ensures IsSubsequence(AddToHistory(prev, text)[1..], prev)
  {
    var h := AddToHistory(prev, text);
    FilterIsSubsequence(prev, (x: string) => x != text);
    PrefixOfSubsequence(h[1..], Others(prev, text), prev);
  }

  /** A history without repeats stays without repeats. */
  lemma NoDuplicatesPreserved(prev: seq<string>, text: string)
    requires Distinct(prev)
    ensures Distinct(AddToHistory(prev, text))
  {
    var h := AddToHistory(prev, text);
    FilterDistinct(prev, (x: string) => x != text);
    var others := Others(prev, text);
    forall i, j | 0 <= i < j < |h|
      ensures h[i] != h[j]
    {
      if i > 0 {
        assert h[i] == others[i - 1] && h[j] == others[j - 1];
      }
    }
  }

  /** Each entry of the new history is the new search or an old entry. */
  lemma EntriesComeFromPrevious(prev: seq<string>, text: string)
    ensures forall i :: 1 <= i < |AddToHistory(prev, text)| ==> AddToHistory(prev, text)[i] in prev
  {
    var h := AddToHistory(prev, text);
    var others := Others(prev, text);
    forall i | 1 <= i < |h|
      ensures h[i] in prev
    {
      assert h[i] == others[i - 1];
    }
  }

  /** Repeating the most recent search leaves the history unchanged. */
  lemma AddIdempotent(prev: seq<string>, text: string)
    ensures AddToHistory(AddToHistory(prev, text), text) == AddToHistory(prev, text)
  {
    var h := AddToHistory(prev, text);
    var p := (x: string) => x != text;
    assert h == [text] + h[1..];
    FilterAppend([text], h[1..], p);
    assert Filter([text], p) == [];
    FilterKeepsAll(h[1..], p);
    assert Others(h, text) == h[1..];
    assert [text] + Others(h, text) == h;
  }

  /** After clearing, a search leaves exactly that search in the history. */
  lemma ClearThenAdd(text: string)
    ensures AddToHistory(ClearHistory(), text) == [text]
  {
  }
}
