/** The test helper that reads a download's file name from its `Content-Disposition` header. */
module TestUtils {
  import opened Wrappers
  import opened Text

  /** Python's `s[1:-1]`: drop the first and the last character; empty for fewer than two. */
  function DropEnds(s: string): (r: string)
    ensures |s| >= 2 ==> r == s[1..|s| - 1]
    ensures |s| < 2 ==> r == []
  {
    if |s| >= 2 then s[1..|s| - 1] else []
  }

  /** `get_filename`: the text after the one `filename=` of the header, without its first and
      last characters (the quotes); none without a header or unless `filename=` occurs once. */
  function GetFilename(contentDisposition: Option<string>): (r: Option<string>)
    ensures contentDisposition.None? || contentDisposition == Some([]) ==> r.None?
    ensures r.Some? ==> exists before, after ::
      contentDisposition == Some(before + "filename=" + after)
      && !Contains(before, "filename=") && !Contains(after, "filename=") && r.value == DropEnds(after)
    ensures forall before, after ::
      (contentDisposition == Some(before + "filename=" + after)
       && !Contains(before, "filename=") && !Contains(after, "filename=")) ==> r == Some(DropEnds(after))
  {
    if contentDisposition.None? || contentDisposition.value == [] then None
    else
      UniqueOccurrenceSplits(contentDisposition.value);
      var parts := SplitOn(contentDisposition.value, "filename=");
      if |parts| == 2 then
        SplitOnJoin(contentDisposition.value, "filename=");
        SplitOnPartsFree(contentDisposition.value, "filename=");
        assert parts[1..] == [parts[1]];
        Some(DropEnds(parts[1]))
      else None
  }

  /** Cutting `a + sep + b` where `sep` first occurs right after `a` and not at all in `b`. */
  lemma SplitOnAround(a: string, sep: string, b: string)
    requires |sep| > 0
    requires forall j :: 0 <= j < |a| ==> !OccursAt(a + sep + b, sep, j)
    requires !Contains(b, sep)
    ensures SplitOn(a + sep + b, sep) == [a, b]
  {
    var s := a + sep + b;
    assert OccursAt(s, sep, |a|);
    var j := FirstIndex(s, sep, 0).value;
    assert j == |a|;
    assert s[..j] == a && s[j + |sep|..] == b;
    SplitOnAbsent(b, sep);
  }

  /** `filename=` cannot overlap itself: an occurrence starting inside `before` that does not lie
      wholly in `before` would put one of `ilename=` where the `f` of the next occurrence is. */
  lemma NoStraddle(before: string, after: string, j: nat)
    requires j < |before| && !Contains(before, "filename=")
    ensures !OccursAt(before + "filename=" + after, "filename=", j)
  {
    var sep := "filename=";
    var s := before + sep + after;
    if j + |sep| <= |before| {
      assert before[j..j + |sep|] == s[j..j + |sep|];
      assert !OccursAt(before, sep, j);
    } else if j + |sep| <= |s| {
      var d := |before| - j;
      assert s[j..j + |sep|][d] == 'f' != sep[d];
    }
  }

  /** A header with exactly one `filename=` is cut there and nowhere else. */
  lemma UniqueOccurrenceSplits(h: string)
    ensures forall before, after ::
      h == before + "filename=" + after && !Contains(before, "filename=") && !Contains(after, "filename=")
      ==> SplitOn(h, "filename=") == [before, after]
  {
    forall before, after |
      h == before + "filename=" + after && !Contains(before, "filename=") && !Contains(after, "filename=")
      ensures SplitOn(h, "filename=") == [before, after]
    {
      forall j | 0 <= j < |before|
        ensures !OccursAt(before + "filename=" + after, "filename=", j)
      {
        NoStraddle(before, after, j);
      }
      SplitOnAround(before, "filename=", after);
    }
  }

  /** No character of `"attachment; "` starts `filename=`. */
  lemma AttachmentHasNoF(j: nat)
    requires j < |"attachment; "|
    ensures "attachment; "[j] != 'f'
  {
    var a := "attachment; ";
    if j < 6 { assert j == 0 || j == 1 || j == 2 || j == 3 || j == 4 || j == 5; }
    else { assert j == 6 || j == 7 || j == 8 || j == 9 || j == 10 || j == 11; }
  }

  /** `"attachment; "` holds no `filename=`: it has no `f` at all. */
  lemma AttachmentFree()
    ensures !Contains("attachment; ", "filename=")
  {
    var a := "attachment; ";
    var sep := "filename=";
    forall j | 0 <= j <= |a|
      ensures !OccursAt(a, sep, j)
    {
      if j + |sep| <= |a| {
        AttachmentHasNoF(j);
        assert a[j..j + |sep|][0] == a[j] != sep[0];
      }
    }
  }

  /** Quoting a name free of `filename=` adds no occurrence: the quotes are not part of it. */
  lemma QuotedFree(name: string)
    requires !Contains(name, "filename=")
    ensures !Contains("\"" + name + "\"", "filename=")
  {
    var sep := "filename=";
    var b := "\"" + name + "\"";
    forall j | 0 <= j <= |b|
      ensures !OccursAt(b, sep, j)
    {
      if j + |sep| <= |b| {
        if j == 0 {
          assert b[j..j + |sep|][0] == '"' != sep[0];
        } else if j + |sep| == |b| {
          assert b[j..j + |sep|][|sep| - 1] == '"' != sep[|sep| - 1];
        } else {
          assert b[j..j + |sep|] == name[j - 1..j - 1 + |sep|];
          assert !OccursAt(name, sep, j - 1);
        }
      }
    }
  }

  /** The header a download sends, `attachment; filename="X"`, gives back `X`. */
  lemma GetFilenameRoundTrip(name: string)
    requires !Contains(name, "filename=")
    ensures GetFilename(Some("attachment; filename=\"" + name + "\"")) == Some(name)
  {
    var a := "attachment; ";
    var b := "\"" + name + "\"";
    assert "attachment; filename=\"" + name + "\"" == a + "filename=" + b;
    AttachmentFree();
    QuotedFree(name);
    assert b[1..|b| - 1] == name;
  }
}
