/**
 How the script picks the file extension of the downloaded image from the
 image URL: the text after the last `.`, cut at the first `?`, kept only if it
 is one of the lower-case image extensions it knows, `jpg` otherwise.
 */
module Extension {
  import opened Strings

  /** The extensions kept as they are; matching is case-sensitive. */
  const Allowed: seq<string> := ["jpg", "jpeg", "png", "gif"]

  /** The extension used for anything not in `Allowed`. */
  const Fallback: string := "jpg"

  /** `image_url.split('.')[-1].split('?')[0]`: the candidate extension
      before it is checked against `Allowed`. */
  function RawExtension(url: string): (ext: string)
    ensures '.' !in ext && '?' !in ext
  {
    var tail := AfterLast(url, '.');
    BeforeFirstIsPrefix(tail, '?');
    BeforeFirst(tail, '?')
  }

  /** The extension the image file is saved with. It is always one of the
      known extensions; it is the URL's own candidate exactly when that
      candidate is one of them, and `jpg` whenever it is not. */
  function ImageExtension(url: string): (ext: string)
    ensures ext in Allowed
    ensures ext == RawExtension(url) <==> RawExtension(url) in Allowed
    ensures RawExtension(url) !in Allowed ==> ext == Fallback
  {
    var raw := RawExtension(url);
    if raw in Allowed then raw else Fallback
  }

  /** When the last `.` of the URL is followed by a query string without
      further dots, the candidate is the text between the `.` and the `?`. */
  lemma ExtensionBeforeQuery(base: string, ext: string, query: string)
    requires '.' !in ext && '?' !in ext
    requires '.' !in query
    ensures RawExtension(base + "." + ext + "?" + query) == ext
  {
    var url := base + "." + ext + "?" + query;
    var tail := ext + "?" + query;
    assert url == base + ['.'] + tail;
    assert '.' !in tail by {
      assert forall k :: 0 <= k < |tail| ==> tail[k] != '.' by {
        forall k | 0 <= k < |tail| ensures tail[k] != '.' {
          if k < |ext| {
            assert tail[k] == ext[k];
          } else if k > |ext| {
            assert tail[k] == query[k - |ext| - 1];
          }
        }
      }
    }
    AfterLastIs(base, '.', tail);
    assert tail == ext + ['?'] + query;
    BeforeFirstIs(ext, '?', query);
  }

  /** A URL ending in `.ext` with no query string yields `ext`. */
  lemma ExtensionAtEnd(base: string, ext: string)
    requires '.' !in ext && '?' !in ext
    ensures RawExtension(base + "." + ext) == ext
  {
    assert base + "." + ext == base + ['.'] + ext;
    AfterLastIs(base, '.', ext);
    NoSepWhole(ext, '?');
  }

  /** A URL without any `.` yields its own text up to the first `?`. */
  lemma ExtensionWithoutDot(url: string)
    requires '.' !in url
    ensures RawExtension(url) == BeforeFirst(url, '?')
  {
    NoSepWhole(url, '.');
  }

  /** A `.` inside the query string moves the split point: the candidate
      becomes whatever follows the query's last dot, and the real extension
      in the path is ignored. */
  lemma DotInQueryWins(base: string, ext: string, query: string, last: string)
    requires '.' !in last && '?' !in last
    ensures RawExtension(base + "." + ext + "?" + query + "." + last) == last
  {
    var url := base + "." + ext + "?" + query + "." + last;
    assert url == (base + "." + ext + "?" + query) + ['.'] + last;
    AfterLastIs(base + "." + ext + "?" + query, '.', last);
    NoSepWhole(last, '?');
  }
}
