/** The string-level parts of the Blobstore storage backend: the universal-newline line reader over a
    blob, the range and disposition headers of `serve_file`, and the `<blobkey>/<name>` storage names. */
module Storage {
  import opened Wrappers
  import opened Text

  // ---------------------------------------------------------------------------------------------
  // Universal-newline `readline`
  // ---------------------------------------------------------------------------------------------

  predicate IsTerminator(c: char) { c == '\n' || c == '\r' }

  /** The index of the first `\r` or `\n` at or after `pos`, or the end of the data when there is none. */
  function LineEnd(data: string, pos: nat): (k: nat)
    requires pos <= |data|
    ensures pos <= k <= |data|
    ensures forall i :: pos <= i < k ==> !IsTerminator(data[i])
    ensures k < |data| ==> IsTerminator(data[k])
    decreases |data| - pos
  {
    if pos == |data| || IsTerminator(data[pos]) then pos else LineEnd(data, pos + 1)
  }

  /** What `read(size=1)` answers at `pos`: the next character, or `""` at the end of the blob. */
  function ReadAt(data: string, pos: nat): (c: string)
    ensures |c| <= 1 && (c != [] <==> pos < |data|)
  {
    if pos < |data| then [data[pos]] else []
  }

  /** The kept characters followed by the single `"\n"` that ends every non-empty line, unless the
      line already holds `size` characters under a size limit (`size > -1`). */
  function Terminated(kept: string, size: int): (line: string)
    ensures line == kept || line == kept + "\n"
    ensures line == kept + "\n" <==> kept != [] && (size <= -1 || |kept| < size)
  {
    if kept != [] && (size <= -1 || |kept| < size) then kept + "\n" else kept
  }

  /** One `readline(size)` on the blob `data` from position `pos`: the line returned and the position
      the next read starts from.  The loop stops at the first terminator, at the end of the blob, or
      holding `size` characters with the character after them already read; a `\r` read last is
      followed by one more read that is kept only when it is a `\n`. */
  function NextLine(data: string, pos: nat, size: int): (r: (string, nat))
    requires pos <= |data|
    ensures pos <= r.1 <= |data|
  {
    var stop := pos + Kept(data, pos, size);  // the position of the last character the loop read
    var after := if stop < |data| then stop + 1 else stop;
    var next := if stop < |data| && data[stop] == '\r' && after < |data| && data[after] == '\n' then after + 1 else after;
    (Terminated(data[pos..stop], size), next)
  }

  /** A `BlobReader` with `readline` overridden; the blob is `data` and `position` is the offset of
      the next `read`. */
  class UniversalNewLineBlobReader {
    const data: string
    var position: nat

    ghost predicate Valid()
      reads this
    {
      position <= |data|
    }

    constructor(data: string)
      ensures this.data == data && position == 0 && Valid()
    {
      this.data := data;
      position := 0;
    }

    /** `read(size=1)`. */
    method Read1() returns (c: string)
      requires Valid()
      modifies this`position
      ensures Valid()
      ensures c == ReadAt(data, old(position)) && position == old(position) + |c|
    {
      if position < |data| {
        c := [data[position]];
        position := position + 1;
      } else {
        c := [];
      }
    }

    /** `seek(-1, 1)`: step back over the character just read. */
    method SeekBack1()
      requires 1 <= position <= |data|
      modifies this`position
      ensures position == old(position) - 1 && Valid()
    {
      position := position - 1;
    }

    /** `readline(size=-1)`: a line ended by `\n`, `\r\n` or a lone `\r`, returned with a `\n` ending. */
    method Readline(size: int) returns (line: string)
      requires Valid()
      modifies this`position
      ensures Valid()
      ensures (line, position) == NextLine(data, old(position), size)
    {
      ghost var start := position;
      var limitSize := size > -1;
      var buf, c := ReadKept(size);
      ghost var stop := start + |buf|;
      assert c == "\r" <==> stop < |data| && data[stop] == '\r';
      if c == "\r" {
        var n := Read1();
        if n != "" && n != "\n" {
          SeekBack1();
        }
      }
      assert position == NextLine(data, start, size).1;
      if buf != [] && (!limitSize || |buf| < size) {
        buf := buf + "\n";
      }
      line := buf;
    }

    /** The read loop of `readline`: characters are kept until a terminator, the end of the blob or
        `size` kept characters; `c` is the last character read, which is not kept. */
    method ReadKept(size: int) returns (buf: string, c: string)
      requires Valid()
      modifies this`position
      ensures Valid()
      ensures |buf| == Kept(data, old(position), size) && buf == data[old(position)..old(position) + |buf|]
      ensures c == ReadAt(data, old(position) + |buf|) && position == old(position) + |buf| + |c|
    {
      ghost var start := position;
      var limitSize := size > -1;
      buf := [];
      c := Read1();
      while c != "\n" && c != "\r" && (!limitSize || |buf| < size)
        invariant start + |buf| <= |data|
        invariant buf == data[start..start + |buf|] && NoTerminator(buf)
        invariant c == ReadAt(data, start + |buf|) && position == start + |buf| + |c|
        invariant !limitSize || |buf| <= size
        decreases |data| - |buf|
      {
        if c == "" {
          break;
        }
        buf := buf + c;
        c := Read1();
      }
      KeptAtExit(data, start, |buf|, size);
    }
  }

  /** How many characters the read loop keeps. */
  function Kept(data: string, pos: nat, size: int): (m: nat)
    requires pos <= |data|
    ensures pos + m <= LineEnd(data, pos)
  {
    var k := LineEnd(data, pos);
    if size > -1 && size < k - pos then size else k - pos
  }

  /** The loop stops after `m` kept characters exactly when `m` is what `Kept` counts. */
  lemma KeptAtExit(data: string, pos: nat, m: nat, size: int)
    requires pos + m <= |data|
    requires NoTerminator(data[pos..pos + m])
    requires size > -1 ==> m <= size
    requires pos + m == |data| || IsTerminator(data[pos + m]) || (size > -1 && m == size)
    ensures m == Kept(data, pos, size)
  {
    assert forall i :: pos <= i < pos + m ==> data[i] == data[pos..pos + m][i - pos];
  }

  predicate NoTerminator(t: string) {
    forall i :: 0 <= i < |t| ==> !IsTerminator(t[i])
  }

  /** The first terminator at or after `pos` is the one right after a terminator-free `t`. */
  lemma {:induction false} LineEndOfText(data: string, pos: nat, t: string)
    requires pos <= |data| && pos + |t| <= |data| && data[pos..pos + |t|] == t && NoTerminator(t)
    requires pos + |t| == |data| || IsTerminator(data[pos + |t|])
    ensures LineEnd(data, pos) == pos + |t|
  {
  }

  /** A terminator-free `t` followed by a terminator: `t` is the line, and the terminator is
      consumed, with the `\n` of a `\r\n` pair. */
  lemma TerminatedText(data: string, pos: nat, size: int, t: string)
    requires pos + |t| < |data| && data[pos..pos + |t|] == t && NoTerminator(t)
    requires IsTerminator(data[pos + |t|])
    requires size <= -1 || |t| <= size
    ensures var stop := pos + |t|;
      NextLine(data, pos, size) ==
        (Terminated(t, size),
         if data[stop] == '\r' && stop + 1 < |data| && data[stop + 1] == '\n' then stop + 2 else stop + 1)
  {
    LineEndOfText(data, pos, t);
    assert Kept(data, pos, size) == |t|;
  }

  /** A line ended by `\n`: the terminator is consumed and not returned. */
  lemma LineFeed(data: string, pos: nat, size: int, t: string, rest: string)
    requires pos <= |data| && data[pos..] == t + "\n" + rest && NoTerminator(t)
    requires size <= -1 || |t| <= size
    ensures NextLine(data, pos, size) == (Terminated(t, size), pos + |t| + 1)
  {
    var u := data[pos..];
    assert u[..|t|] == t && u[|t|] == '\n';
    assert data[pos..pos + |t|] == t && data[pos + |t|] == '\n';
    TerminatedText(data, pos, size, t);
  }

  /** A `\r\n` pair is consumed as one terminator. */
  lemma CrLf(data: string, pos: nat, size: int, t: string, rest: string)
    requires pos <= |data| && data[pos..] == t + "\r\n" + rest && NoTerminator(t)
    requires size <= -1 || |t| <= size
    ensures NextLine(data, pos, size) == (Terminated(t, size), pos + |t| + 2)
  {
    var u := data[pos..];
    assert u[..|t|] == t && u[|t|] == '\r' && u[|t| + 1] == '\n';
    assert data[pos..pos + |t|] == t && data[pos + |t|] == '\r' && data[pos + |t| + 1] == '\n';
    TerminatedText(data, pos, size, t);
  }

  /** After a lone `\r` the character that follows is pushed back: the next read starts at `x`. */
  lemma LoneCr(data: string, pos: nat, size: int, t: string, x: char, rest: string)
    requires pos <= |data| && data[pos..] == t + "\r" + [x] + rest && NoTerminator(t) && x != '\n'
    requires size <= -1 || |t| <= size
    ensures NextLine(data, pos, size) == (Terminated(t, size), pos + |t| + 1)
    ensures data[NextLine(data, pos, size).1] == x
  {
    var u := data[pos..];
    assert u[..|t|] == t && u[|t|] == '\r' && u[|t| + 1] == x;
    assert data[pos..pos + |t|] == t && data[pos + |t|] == '\r' && data[pos + |t| + 1] == x;
    TerminatedText(data, pos, size, t);
  }

  /** A `\r` that ends the blob: nothing is pushed back and the next read is at the end. */
  lemma CrAtEnd(data: string, pos: nat, size: int, t: string)
    requires pos <= |data| && data[pos..] == t + "\r" && NoTerminator(t)
    requires size <= -1 || |t| <= size
    ensures NextLine(data, pos, size) == (Terminated(t, size), |data|)
  {
    var u := data[pos..];
    assert u[..|t|] == t && u[|t|] == '\r' && |u| == |t| + 1;
    assert data[pos..pos + |t|] == t && data[pos + |t|] == '\r';
    LineEndOfText(data, pos, t);
    assert Kept(data, pos, size) == |t|;
  }

  /** A last line without terminator is returned with a `\n` and leaves the reader at the end. */
  lemma LastLine(data: string, pos: nat, size: int)
    requires pos <= |data| && NoTerminator(data[pos..])
    requires size <= -1 || |data| - pos <= size
    ensures NextLine(data, pos, size) == (Terminated(data[pos..], size), |data|)
  {
    LineEndOfText(data, pos, data[pos..]);
    assert Kept(data, pos, size) == |data| - pos;
  }

  /** A line longer than the limit is cut at `size` characters without a `\n`, and the character
      after the cut has been read and is not returned by any `readline`: `readline(2)` on `"abcd"`
      answers `"ab"` and the next read starts at `"d"`. */
  lemma LongLine(data: string, pos: nat, size: int, t: string)
    requires pos + |t| <= |data| && data[pos..pos + |t|] == t && NoTerminator(t)
    requires -1 < size < |t|
    ensures NextLine(data, pos, size) == (t[..size], pos + size + 1)
  {
    assert forall i :: pos <= i < pos + |t| ==> data[i] == t[i - pos];
    assert Kept(data, pos, size) == size;
    assert data[pos..pos + size] == t[..size];
  }

  lemma SizeLimitExample()
    ensures NextLine("abcd", 0, 2) == ("ab", 3)
  {
    assert NoTerminator("abcd") by {
      forall i | 0 <= i < 4 ensures !IsTerminator("abcd"[i]) {
      }
    }
    assert "abcd"[0..4] == "abcd" && "abcd"[..2] == "ab";
    LongLine("abcd", 0, 2, "abcd");
  }

  /** With a size limit the line never exceeds `size` characters, the `\n` included. */
  lemma LineWithinLimit(data: string, pos: nat, size: int)
    requires pos <= |data| && size > -1
    ensures |NextLine(data, pos, size).0| <= size
  {
  }

  /** At the end of the blob, and on an empty line, `readline` answers `""`. */
  lemma EmptyLine(data: string, pos: nat, size: int)
    requires pos == |data| || (pos < |data| && IsTerminator(data[pos]))
    ensures NextLine(data, pos, size).0 == ""
  {
  }

  /** Every `readline` before the end of the blob consumes at least one character, so reading line
      by line reaches the end. */
  lemma ReadlineProgresses(data: string, pos: nat, size: int)
    requires pos < |data|
    ensures pos < NextLine(data, pos, size).1
  {
  }

  // ---------------------------------------------------------------------------------------------
  // `serve_file`: the range and disposition headers
  // ---------------------------------------------------------------------------------------------

  /** Python truthiness of an optional integer argument: absent and zero are false. */
  predicate Given(o: Option<int>) {
    o.Some? && o.value != 0
  }

  /** The `X-AppEngine-BlobRange` value: built as `"<offset>-<offset + size>"` from whichever of a
      non-zero offset and size is given, else the request's `HTTP_RANGE` passed through (no header
      when that is absent too). */
  function RangeHeader(requested: Option<string>, offset: Option<int>, size: Option<int>): (r: Option<string>)
    ensures !Given(offset) && !Given(size) ==> r == requested
    ensures Given(offset) || Given(size) ==> r.Some? && '-' in r.value
  {
    if Given(offset) || Given(size) then
      var first := if Given(offset) then IntToString(offset.value) else "";
      var base := if Given(offset) then offset.value else 0;
      var last := if Given(size) then IntToString(base + size.value) else "";
      Some(first + "-" + last)
    else
      requested
  }

  /** One side of a range: empty, or a Python integer. */
  function ParseBound(s: string): Option<Option<int>> {
    if s == [] then Some(None)
    else match ParseInt(s)
      case Some(v) => Some(Some(v))
      case None => None
  }

  /** Reads a `"<first>-<last>"` range back into its two optional bounds. */
  function ParseRange(h: string): Option<(Option<int>, Option<int>)> {
    if '-' !in h then None
    else
      match (ParseBound(BeforeFirst(h, '-')), ParseBound(AfterFirst(h, '-')))
      case (Some(first), Some(last)) => Some((first, last))
      case _ => None
  }

  lemma DigitsHaveNoDash(n: nat)
    ensures '-' !in NatToString(n)
  {
  }

  /** A built range reads back as the offset and the end `offset + size`, each present exactly when
      the argument was given; the first number must not be negative, or its sign would be the dash. */
  lemma RangeHeaderRoundTrip(requested: Option<string>, offset: Option<int>, size: Option<int>)
    requires Given(offset) || Given(size)
    requires offset.Some? ==> offset.value >= 0
    ensures ParseRange(RangeHeader(requested, offset, size).value) ==
      Some(( if Given(offset) then Some(offset.value) else None,
             if Given(size) then Some((if Given(offset) then offset.value else 0) + size.value) else None ))
  {
    var first := if Given(offset) then IntToString(offset.value) else "";
    var base := if Given(offset) then offset.value else 0;
    var last := if Given(size) then IntToString(base + size.value) else "";
    assert '-' !in first by {
      if Given(offset) {
        DigitsHaveNoDash(offset.value);
      }
    }
    var h := first + "-" + last;
    assert RangeHeader(requested, offset, size) == Some(h);
    assert h == first + ['-'] + last;
    SplitAtFirst(first, '-', last);
    assert ParseBound(first) == Some(if Given(offset) then Some(offset.value) else None) by {
      if Given(offset) {
        ParseIntOfIntToString(offset.value);
      }
    }
    assert ParseBound(last) == Some(if Given(size) then Some(base + size.value) else None) by {
      if Given(size) {
        ParseIntOfIntToString(base + size.value);
      }
    }
  }

  datatype ServeError = FilenameWithoutDownload  // the `ValueError` for a `filename` without `as_download`

  /** The `Content-Disposition` header: an attachment named by `filename` when it is non-empty, else
      by the blob's stored name; a filename is refused unless the file is served as a download. */
  function Disposition(asDownload: bool, filename: Option<string>, storedName: string): (r: Result<Option<string>, ServeError>)
    ensures r.Failure? <==> !asDownload && filename.Some? && filename.value != ""
    ensures r.Success? ==> (r.value.Some? <==> asDownload)
  {
    if asDownload then
      var name := if filename.Some? && filename.value != "" then filename.value else storedName;
      Success(Some("attachment; filename=\"" + name + "\""))
    else if filename.Some? && filename.value != "" then
      Failure(FilenameWithoutDownload)
    else
      Success(None)
  }

  /** The attachment name sits between the header's quotes. */
  lemma DispositionNamesFile(filename: Option<string>, storedName: string)
    ensures var h := Disposition(true, filename, storedName).value.value;
      var name := if filename.Some? && filename.value != "" then filename.value else storedName;
      |h| == |"attachment; filename=\""| + |name| + 1 && h[|"attachment; filename=\""|..|h| - 1] == name
  {
  }

  // ---------------------------------------------------------------------------------------------
  // Storage names `<blobkey>/<name>`
  // ---------------------------------------------------------------------------------------------

  /** The file part of a stored name: backslashes turned into slashes, leading slashes dropped. */
  function FilePart(name: string): (r: string)
    ensures '\\' !in r
    ensures r != [] ==> r[0] != '/'
  {
    var normal := ReplaceChar(name, '\\', '/');
    ReplaceCharRemoves(name, '\\', '/');
    LStripChar(normal, '/')
  }

  /** The name `_save` returns for a blob saved under `key`. */
  function StorageName(key: string, name: string): string {
    key + "/" + FilePart(name)
  }

  /** `_get_key`: the blob key is everything before the first `/`. */
  function BlobKeyOf(name: string): (key: string)
    ensures '/' !in key
  {
    BeforeFirst(name, '/')
  }

  /** `_get_key` recovers the key of a saved name, and the rest of the name is the normalised file
      part, whenever the key itself holds no `/`. */
  lemma StorageNameRoundTrip(key: string, name: string)
    requires '/' !in key
    ensures BlobKeyOf(StorageName(key, name)) == key
    ensures AfterFirst(StorageName(key, name), '/') == FilePart(name)
  {
    assert key + "/" + FilePart(name) == key + ['/'] + FilePart(name);
    SplitAtFirst(key, '/', FilePart(name));
  }

  /** `get_valid_name`: surrounding white space stripped, then backslashes turned into slashes. */
  function ValidName(name: string): (r: string)
    ensures '\\' !in r
    ensures r != [] ==> !IsSpace(r[0]) && !IsSpace(r[|r| - 1])
  {
    var t := Strip(name);
    ReplaceCharRemoves(t, '\\', '/');
    ReplaceCharKeepsEnds(t, '\\', '/');
    ReplaceChar(t, '\\', '/')
  }

  /** `get_available_name`: backslashes turned into slashes, nothing else changed. */
  function AvailableName(name: string): (r: string)
    ensures '\\' !in r
    ensures |r| == |name| && forall i :: 0 <= i < |name| && name[i] != '\\' ==> r[i] == name[i]
  {
    ReplaceCharRemoves(name, '\\', '/');
    ReplaceChar(name, '\\', '/')
  }

  /** `get_valid_name` is idempotent. */
  lemma ValidNameIdempotent(name: string)
    ensures ValidName(ValidName(name)) == ValidName(name)
  {
    var t := Strip(name);
    var v := ReplaceChar(t, '\\', '/');
    assert v == ValidName(name);
    StripTrimmed(v);
    assert ValidName(v) == ReplaceChar(v, '\\', '/');
    ReplaceCharIdempotent(t, '\\', '/');
  }

  /** `get_available_name` is idempotent. */
  lemma AvailableNameIdempotent(name: string)
    ensures AvailableName(AvailableName(name)) == AvailableName(name)
  {
    ReplaceCharIdempotent(name, '\\', '/');
  }

  /** A valid name is already available. */
  lemma ValidNameIsAvailable(name: string)
    ensures AvailableName(ValidName(name)) == ValidName(name)
  {
    ReplaceCharIdempotent(Strip(name), '\\', '/');
  }

  /** Saving an available name stores the same name as saving the original. */
  lemma StorageNameOfAvailable(key: string, name: string)
    ensures StorageName(key, AvailableName(name)) == StorageName(key, name)
  {
    ReplaceCharIdempotent(name, '\\', '/');
  }
}
