/** `DataBase::getFinishedJobs`: a page of result files, either upwards from a given id or downwards
    from the highest one. The directory listing comes in an arbitrary order and may hold any names. */
module Paging {
  import opened Decimal

  // ---------------------------------------------------------------------------
  // Copying one file

  function LineEnd(text: string): (i: nat)
    ensures i <= |text| && (i < |text| ==> text[i] == '\n')
    ensures forall j :: 0 <= j < i ==> text[j] != '\n'
  {
    if text == [] || text[0] == '\n' then 0 else 1 + LineEnd(text[1..])
  }

  /** What `getline` leaves for the next call. */
  function AfterLine(text: string): (rest: string)
    ensures text != [] ==> |rest| < |text|
  {
    var i := LineEnd(text);
    if i < |text| then text[i + 1..] else []
  }

  /** `line.c_str()` ends at the first NUL. */
  function CString(line: string): string {
    if line == [] || line[0] == '\0' then [] else [line[0]] + CString(line[1..])
  }

  /** A file as the page shows it: every line up to its first NUL, each with a newline. */
  function LineCopy(text: string): string
    decreases |text|
  {
    if text == [] then [] else CString(text[..LineEnd(text)]) + "\n" + LineCopy(AfterLine(text))
  }

  lemma Associative(a: string, b: string, c: string)
    ensures (a + b) + c == a + (b + c)
  {
  }

  method CopyLines(text: string) returns (copied: string)
    ensures copied == LineCopy(text)
  {
    copied := [];
    var rest := text;
    while rest != []
      invariant copied + LineCopy(rest) == LineCopy(text)
      decreases |rest|
    {
      var line := CString(rest[..LineEnd(rest)]) + "\n";
      Associative(copied, line, LineCopy(AfterLine(rest)));
      copied := copied + line;
      rest := AfterLine(rest);
    }
  }

  lemma {:induction false} CStringWithoutNul(line: string)
    requires '\0' !in line
    ensures CString(line) == line
  {
    if line != [] {
      CStringWithoutNul(line[1..]);
    }
  }

  /** The text with a newline at its end, unless it is empty. */
  function Terminated(text: string): string {
    if text == [] || text[|text| - 1] == '\n' then text else text + "\n"
  }

  lemma TerminatedLine(line: string, rest: string)
    ensures Terminated(line + "\n" + rest) == line + "\n" + Terminated(rest)
  {
    var text := line + "\n" + rest;
    if rest != [] {
      assert text[|text| - 1] == rest[|rest| - 1];
    }
  }

  lemma SplitLine(text: string)
    requires LineEnd(text) < |text|
    ensures text == text[..LineEnd(text)] + "\n" + AfterLine(text)
  {
    var i := LineEnd(text);
    CutAround(text, i);
  }

  lemma CutAround(text: string, i: nat)
    requires i < |text|
    ensures text == text[..i] + [text[i]] + text[i + 1..]
  {
  }

  /** Without NULs nothing is lost; a missing newline at the end of the file is added. */
  lemma {:induction false} CopyIsFaithful(text: string)
    requires '\0' !in text
    ensures LineCopy(text) == Terminated(text)
    decreases |text|
  {
    if text != [] {
      CStringWithoutNul(text[..LineEnd(text)]);
      CopyIsFaithful(AfterLine(text));
      if LineEnd(text) < |text| {
        SplitLine(text);
        TerminatedLine(text[..LineEnd(text)], AfterLine(text));
      } else {
        assert text[..LineEnd(text)] == text;
      }
    }
  }

  // ---------------------------------------------------------------------------
  // What a page is

  /** Some name of the directory is read as `id`. */
  ghost predicate Listed(listing: seq<string>, id: int) {
    exists i :: 0 <= i < |listing| && Stoi(listing[i]) == Some(id)
  }

  /** The highest id of a directory, or -1. */
  function Highest(listing: seq<string>): int {
    if listing == [] then -1 else
      var h := Highest(listing[..|listing| - 1]);
      match Stoi(listing[|listing| - 1])
      case None => h
      case Some(id) => if h < id then id else h
  }

  predicate Exists(files: map<string, string>, id: int) {
    ToString(id) in files
  }

  /** `items` are the copies of id, id+1, .. as far as the files exist without a gap, at most `max`. */
  ghost predicate Upwards(files: map<string, string>, id: int, max: int, items: seq<string>) {
    && |items| <= (if max < 0 then 0 else max)
    && (forall k :: 0 <= k < |items| ==> IsCopy(files, id + k, items[k]))
    && (|items| < max ==> !Exists(files, id + |items|))
  }

  /** `items` are the copies of id, id-1, .. down to 0 as far as the files exist without a gap, at most
      `max` + 1. */
  ghost predicate Downwards(files: map<string, string>, id: int, max: int, items: seq<string>) {
    && |items| <= (if max < 0 then 0 else max + 1)
    && |items| <= (if id < 0 then 0 else id + 1)
    && (forall k :: 0 <= k < |items| ==> IsCopy(files, id - k, items[k]))
    && (|items| < max + 1 ==> id - |items| < 0 || !Exists(files, id - |items|))
  }

  ghost predicate IsCopy(files: map<string, string>, id: int, item: string) {
    Exists(files, id) && item == LineCopy(files[ToString(id)])
  }

  function Join(items: seq<string>): string {
    if items == [] then []
    else if |items| == 1 then items[0]
    else Join(items[..|items| - 1]) + ",\n" + items[|items| - 1]
  }

  /** A list as it should look. */
  function Listing(items: seq<string>): string {
    "[\n" + Join(items) + "]\n"
  }

  /** What the upward page writes after its last item: the separator comes before the next file is tried. */
  function Trailer(n: nat, max: int): string {
    if 0 < n < max then ",\n" else ""
  }

  ghost predicate ForwardPage(files: map<string, string>, fromId: int, max: int, text: string) {
    exists items :: Upwards(files, fromId, max, items) && text == "[\n" + (Join(items) + Trailer(|items|, max)) + "]\n"
  }

  /** Downwards the page is always a proper list. */
  ghost predicate ReversePage(files: map<string, string>, highest: int, max: int, text: string) {
    exists items :: Downwards(files, highest, max, items) && text == Listing(items)
  }

  /** `text` is the page a client asked for. */
  ghost predicate IsPage(listing: seq<string>, files: map<string, string>, fromId: int, max: int, text: string) {
    if Listed(listing, fromId) then ForwardPage(files, fromId, max, text)
    else ReversePage(files, Highest(listing), max, text)
  }

  // ---------------------------------------------------------------------------
  // The code

  lemma JoinSnoc(items: seq<string>, item: string)
    ensures Join(items + [item]) == if items == [] then item else Join(items) + ",\n" + item
  {
    assert (items + [item])[..|items|] == items;
  }

  /** The search loop: it may stop early, but only once the id is found. */
  method Search(listing: seq<string>, fromId: int) returns (fromFound: bool, highestId: int)
    ensures fromFound <==> Listed(listing, fromId)
    ensures !fromFound ==> highestId == Highest(listing)
  {
    highestId := -1;
    fromFound := false;
    for i := 0 to |listing|
      invariant !fromFound && highestId == Highest(listing[..i])
      invariant forall k :: 0 <= k < i ==> Stoi(listing[k]) != Some(fromId)
    {
      assert listing[..i + 1][..i] == listing[..i];
      match Stoi(listing[i])
      case None =>
      case Some(fileId) =>
        if highestId < fileId {
          highestId := fileId;
        }
        if fileId == fromId {
          fromFound := true;
          return;
        }
    }
    assert listing[..|listing|] == listing;
  }

  function Nth(id: int, up: bool, k: nat): int { if up then id + k else id - k }

  /** The copies of id, id+1, .. (downwards: id, id-1, ..) have been printed. */
  ghost predicate Printed(files: map<string, string>, id: int, up: bool, items: seq<string>, stream: string) {
    && stream == Join(items)
    && forall k :: 0 <= k < |items| ==> IsCopy(files, Nth(id, up, k), items[k])
  }

  /** The stream before the next item: a separator follows unless it is the first. */
  function Separated(stream: string, cnt: nat): string {
    if cnt > 0 then stream + ",\n" else stream
  }

  lemma PrintOne(files: map<string, string>, id: int, up: bool, items: seq<string>, stream: string, item: string)
    requires Printed(files, id, up, items, stream) && IsCopy(files, Nth(id, up, |items|), item)
    ensures Printed(files, id, up, items + [item], Separated(stream, |items|) + item)
  {
    JoinSnoc(items, item);
    assert Separated(stream, |items|) + item == Join(items + [item]) by {
      if items == [] {
        assert stream + item == item;
      }
    }
    forall k | 0 <= k < |items| + 1
      ensures IsCopy(files, Nth(id, up, k), (items + [item])[k])
    {
      assert k < |items| ==> IsCopy(files, Nth(id, up, k), items[k]);
    }
  }

  lemma CutShortUpwards(files: map<string, string>, id: int, max: int, items: seq<string>, stream: string)
    requires Printed(files, id, true, items, stream) && |items| < max && !Exists(files, id + |items|)
    ensures Upwards(files, id, max, items) && Separated(stream, |items|) == Join(items) + Trailer(|items|, max)
  {
    PrintedUpwards(files, id, max, items, stream);
    if items == [] {
      assert stream + "" == stream;
    }
  }

  lemma PrintedUpwards(files: map<string, string>, id: int, max: int, items: seq<string>, stream: string)
    requires Printed(files, id, true, items, stream) && |items| <= (if max < 0 then 0 else max)
    ensures (|items| < max ==> !Exists(files, id + |items|)) ==> Upwards(files, id, max, items)
  {
    forall k | 0 <= k < |items|
      ensures IsCopy(files, id + k, items[k])
    {
      CopyAt(files, id, true, items, stream, k);
    }
  }

  lemma CopyAt(files: map<string, string>, id: int, up: bool, items: seq<string>, stream: string, k: nat)
    requires Printed(files, id, up, items, stream) && k < |items|
    ensures IsCopy(files, if up then id + k else id - k, items[k])
  {
    assert IsCopy(files, Nth(id, up, k), items[k]);
  }

  lemma NoTrailer(stream: string, n: nat, max: int)
    requires n >= max
    ensures stream + Trailer(n, max) == stream
  {
  }

  lemma PrintedDownwards(files: map<string, string>, id: int, max: int, items: seq<string>, stream: string)
    requires Printed(files, id, false, items, stream)
    requires |items| <= (if max < 0 then 0 else max + 1) && |items| <= (if id < 0 then 0 else id + 1)
    requires |items| < max + 1 ==> id - |items| < 0 || !Exists(files, id - |items|)
    ensures Downwards(files, id, max, items)
  {
    forall k | 0 <= k < |items|
      ensures IsCopy(files, id - k, items[k])
    {
      CopyAt(files, id, false, items, stream, k);
    }
  }

  method CopyFile(files: map<string, string>, id: int) returns (copied: string)
    requires Exists(files, id)
    ensures IsCopy(files, id, copied)
  {
    copied := CopyLines(files[ToString(id)]);
  }

  method PrintForward(files: map<string, string>, fromId: int, max: int) returns (stream: string)
    ensures exists items :: Upwards(files, fromId, max, items) && stream == Join(items) + Trailer(|items|, max)
  {
    stream := [];
    ghost var items: seq<string> := [];
    var cnt := 0;
    var id := fromId;
    while id < fromId + max
      invariant cnt == |items| && id == fromId + cnt && cnt <= (if max < 0 then 0 else max)
      invariant Printed(files, fromId, true, items, stream)
      decreases fromId + max - id
    {
      ghost var before := stream;
      if cnt > 0 {
        stream := stream + ",\n";
      }
      assert stream == Separated(before, cnt);
      if !Exists(files, id) {
        CutShortUpwards(files, fromId, max, items, before);
        return;
      }
      var copied := CopyFile(files, id);
      PrintOne(files, fromId, true, items, before, copied);
      stream := stream + copied;
      items := items + [copied];
      cnt := cnt + 1;
      id := id + 1;
    }
    PrintedUpwards(files, fromId, max, items, stream);
    NoTrailer(stream, |items|, max);
  }

  method PrintReverse(files: map<string, string>, highestId: int, max: int) returns (stream: string)
    ensures exists items :: Downwards(files, highestId, max, items) && stream == Join(items)
  {
    stream := [];
    ghost var items: seq<string> := [];
    var cnt := 0;
    var id := highestId;
    while id >= 0 && id >= highestId - max
      invariant cnt == |items| && id == highestId - cnt
      invariant cnt <= (if max < 0 then 0 else max + 1) && cnt <= (if highestId < 0 then 0 else highestId + 1)
      invariant Printed(files, highestId, false, items, stream)
      decreases id + 1
    {
      if !Exists(files, id) {
        break;
      }
      ghost var before := stream;
      if cnt > 0 {
        stream := stream + ",\n";
      }
      assert stream == Separated(before, cnt);
      var copied := CopyFile(files, id);
      PrintOne(files, highestId, false, items, before, copied);
      stream := stream + copied;
      items := items + [copied];
      cnt := cnt + 1;
      id := id - 1;
    }
    PrintedDownwards(files, highestId, max, items, stream);
  }

  method GetFinishedJobs(listing: seq<string>, files: map<string, string>, fromId: int, max: int) returns (text: string)
    ensures IsPage(listing, files, fromId, max, text)
  {
    var fromFound, highestId := Search(listing, fromId);
    var stream;
    if fromFound {
      stream := PrintForward(files, fromId, max);
    } else {
      stream := PrintReverse(files, highestId, max);
    }
    text := "[\n" + stream + "]\n";
  }

  // ---------------------------------------------------------------------------
  // What a client can rely on

  /** Listing one more name adds the id it stands for, if any. */
  lemma ListedSnoc(front: seq<string>, name: string, id: int)
    ensures Listed(front + [name], id) <==> Listed(front, id) || Stoi(name) == Some(id)
  {
    var l := front + [name];
    if Listed(front, id) {
      var i :| 0 <= i < |front| && Stoi(front[i]) == Some(id);
      assert l[i] == front[i];
    }
    if Stoi(name) == Some(id) {
      assert l[|front|] == name;
    }
    if Listed(l, id) {
      var i :| 0 <= i < |l| && Stoi(l[i]) == Some(id);
      assert i < |front| ==> front[i] == l[i];
    }
  }

  /** `Highest` is the true maximum of the ids in the directory. */
  lemma {:induction false} HighestIsMaximum(listing: seq<string>)
    ensures Highest(listing) >= -1
    ensures Highest(listing) == -1 || Listed(listing, Highest(listing))
    ensures forall id :: Listed(listing, id) ==> id <= Highest(listing)
  {
    if listing != [] {
      var n := |listing| - 1;
      var front := listing[..n];
      assert listing == front + [listing[n]];
      HighestIsMaximum(front);
      forall id
        ensures Listed(listing, id) <==> Listed(front, id) || Stoi(listing[n]) == Some(id)
      {
        ListedSnoc(front, listing[n], id);
      }
    }
  }

  lemma UpwardsUnique(files: map<string, string>, id: int, max: int, items: seq<string>, others: seq<string>)
    requires Upwards(files, id, max, items) && Upwards(files, id, max, others)
    ensures items == others
  {
    assert |items| < |others| ==> IsCopy(files, id + |items|, others[|items|]);
    assert |others| < |items| ==> IsCopy(files, id + |others|, items[|others|]);
    assert forall k :: 0 <= k < |items| ==> IsCopy(files, id + k, items[k]) && IsCopy(files, id + k, others[k]);
  }

  lemma DownwardsUnique(files: map<string, string>, id: int, max: int, items: seq<string>, others: seq<string>)
    requires Downwards(files, id, max, items) && Downwards(files, id, max, others)
    ensures items == others
  {
    assert |items| < |others| ==> IsCopy(files, id - |items|, others[|items|]);
    assert |others| < |items| ==> IsCopy(files, id - |others|, items[|others|]);
    assert forall k :: 0 <= k < |items| ==> IsCopy(files, id - k, items[k]) && IsCopy(files, id - k, others[k]);
  }

  lemma PageUnique(listing: seq<string>, files: map<string, string>, fromId: int, max: int, text: string, other: string)
    requires IsPage(listing, files, fromId, max, text) && IsPage(listing, files, fromId, max, other)
    ensures text == other
  {
    if Listed(listing, fromId) {
      var items :| Upwards(files, fromId, max, items) && text == "[\n" + (Join(items) + Trailer(|items|, max)) + "]\n";
      var others :| Upwards(files, fromId, max, others) && other == "[\n" + (Join(others) + Trailer(|others|, max)) + "]\n";
      UpwardsUnique(files, fromId, max, items, others);
    } else {
      var items :| Downwards(files, Highest(listing), max, items) && text == Listing(items);
      var others :| Downwards(files, Highest(listing), max, others) && other == Listing(others);
      DownwardsUnique(files, Highest(listing), max, items, others);
    }
  }

  /** The page is determined by the names in the directory: it does not depend on the order in which they
      are listed, nor on how often. */
  lemma OrderIndependent(l1: seq<string>, l2: seq<string>, files: map<string, string>, fromId: int, max: int,
                         text: string, other: string)
    requires forall name :: name in l1 <==> name in l2
    requires IsPage(l1, files, fromId, max, text) && IsPage(l2, files, fromId, max, other)
    ensures text == other
  {
    ListedInBoth(l1, l2);
    ListedInBoth(l2, l1);
    SameHighest(l1, l2);
    PageUnique(l1, files, fromId, max, text, other);
  }

  lemma SameHighest(l1: seq<string>, l2: seq<string>)
    requires forall id :: Listed(l1, id) <==> Listed(l2, id)
    ensures Highest(l1) == Highest(l2)
  {
    HighestIsMaximum(l1);
    HighestIsMaximum(l2);
  }

  lemma ListedInBoth(l1: seq<string>, l2: seq<string>)
    requires forall name :: name in l1 ==> name in l2
    ensures forall id :: Listed(l1, id) ==> Listed(l2, id)
  {
    forall id | Listed(l1, id)
      ensures Listed(l2, id)
    {
      var i :| 0 <= i < |l1| && Stoi(l1[i]) == Some(id);
      assert l1[i] in l2;
    }
  }

  /** The text is a proper list of the results that exist upwards from `fromId`. */
  ghost predicate ProperForward(files: map<string, string>, fromId: int, max: int, text: string) {
    exists items :: Upwards(files, fromId, max, items) && text == Listing(items)
  }

  lemma TrailerShows(items: seq<string>, max: int)
    ensures "[\n" + (Join(items) + Trailer(|items|, max)) + "]\n" == Listing(items) <==> !(0 < |items| < max)
  {
    var page := "[\n" + (Join(items) + Trailer(|items|, max)) + "]\n";
    assert |page| == |Listing(items)| + |Trailer(|items|, max)|;
    if !(0 < |items| < max) {
      assert Join(items) + "" == Join(items);
    }
  }

  lemma CutShort(files: map<string, string>, id: int, max: int, items: seq<string>)
    requires Upwards(files, id, max, items)
    ensures !(0 < |items| < max) <==> !Exists(files, id) || forall k :: id <= k < id + max ==> Exists(files, k)
  {
    if 0 < |items| {
      assert IsCopy(files, id + 0, items[0]);
    }
    if |items| == max {
      forall k | id <= k < id + max
        ensures Exists(files, k)
      {
        assert IsCopy(files, id + (k - id), items[k - id]);
      }
    }
  }

  /** Upwards the page is a proper list exactly when the run of existing results is not cut short by a
      missing one: when at least `max` consecutive results exist, or when there is not even the first. */
  lemma ForwardPageIff(listing: seq<string>, files: map<string, string>, fromId: int, max: int, text: string)
    requires Listed(listing, fromId) && IsPage(listing, files, fromId, max, text)
    ensures ProperForward(files, fromId, max, text) <==>
            !Exists(files, fromId) || forall k :: fromId <= k < fromId + max ==> Exists(files, k)
  {
    var items :| Upwards(files, fromId, max, items) && text == "[\n" + (Join(items) + Trailer(|items|, max)) + "]\n";
    TrailerShows(items, max);
    CutShort(files, fromId, max, items);
    if ProperForward(files, fromId, max, text) {
      var others :| Upwards(files, fromId, max, others) && text == Listing(others);
      UpwardsUnique(files, fromId, max, items, others);
    }
  }

  lemma OneItem(files: map<string, string>, text: string)
    requires Exists(files, 0) && files[ToString(0)] == "{}" && !Exists(files, 1) && text == "[\n{}\n,\n]\n"
    ensures ForwardPage(files, 0, 2, text)
  {
    var items := ["{}\n"];
    CopyIsFaithful("{}");
    assert IsCopy(files, 0 + 0, items[0]);
    assert Upwards(files, 0, 2, items);
    assert Join(items) + Trailer(1, 2) == "{}\n,\n";
    assert text == "[\n" + "{}\n,\n" + "]\n";
  }

  /** Asking for two results when one exists gives a list with a separator and nothing after it. */
  lemma DanglingSeparator()
    ensures IsPage(["0"], map["0" := "{}"], 0, 2, "[\n{}\n,\n]\n")
    ensures !ProperForward(map["0" := "{}"], 0, 2, "[\n{}\n,\n]\n")
  {
    var files := map["0" := "{}"];
    var text := "[\n{}\n,\n]\n";
    assert ToString(0) == "0" && ToString(1) == "1";
    RoundTrip(0);
    assert Stoi(["0"][0]) == Some(0);
    assert "1" !in files by { assert "1"[0] != "0"[0]; }
    assert !Exists(files, 0 + 1);
    OneItem(files, text);
    ForwardPageIff(["0"], files, 0, 2, text);
  }

  // ---------------------------------------------------------------------------
  // The copies and the list, in other terms

  /** `c_str` keeps exactly what comes before the first NUL. */
  lemma {:induction false} CStringMeans(line: string)
    ensures CString(line) <= line && '\0' !in CString(line)
    ensures |CString(line)| < |line| ==> line[|CString(line)|] == '\0'
  {
    if line != [] && line[0] != '\0' {
      CStringMeans(line[1..]);
      assert line == [line[0]] + line[1..];
    }
  }

  lemma {:induction false} LineEndAt(line: string, rest: string)
    requires '\n' !in line && (rest != [] ==> rest[0] == '\n')
    ensures LineEnd(line + rest) == |line|
  {
    if line == [] {
      assert line + rest == rest;
    } else {
      LineEndAt(line[1..], rest);
      assert (line + rest)[1..] == line[1..] + rest;
    }
  }

  /** A file is copied line by line, and a last line without a newline gets one. */
  lemma CopyOfLine(line: string, rest: string)
    requires '\n' !in line
    ensures LineCopy(line + ("\n" + rest)) == CString(line) + "\n" + LineCopy(rest)
    ensures line != [] ==> LineCopy(line) == CString(line) + "\n"
  {
    LineEndAt(line, "\n" + rest);
    var text := line + ("\n" + rest);
    assert text[..|line|] == line && text[|line| + 1..] == rest;
    LineEndAt(line, []);
    assert line + [] == line && line[..|line|] == line;
    assert LineCopy([]) == [];
  }

  /** Two lists joined are the two texts with one separator between them. */
  lemma {:induction false} JoinConcat(a: seq<string>, b: seq<string>)
    requires a != [] && b != []
    ensures Join(a + b) == Join(a) + (",\n" + Join(b))
    decreases |b|
  {
    var n := |b| - 1;
    var last := b[n];
    assert a + b == (a + b[..n]) + [last] && b == b[..n] + [last];
    JoinSnoc(a + b[..n], last);
    JoinSnoc(b[..n], last);
    if n == 0 {
      assert a + b[..n] == a;
    } else {
      JoinConcat(a, b[..n]);
    }
  }
}
