/** Extracting the device name from one line of `nvidia-smi --list-gpus`, i.e.
    `re.search(r':(.*?)\(UUID', line).group(1).strip()`. */
module NvsmiLine {
  import opened Outcomes
  import Text

  /** The literal `(UUID` starts at index `j` of `line`. */
  predicate UuidAt(line: string, j: int)
  {
    0 <= j && j + 5 <= |line|
    && line[j] == '(' && line[j + 1] == 'U' && line[j + 2] == 'U' && line[j + 3] == 'I' && line[j + 4] == 'D'
  }

  /** The lazy group `(.*?)` followed by `\(UUID`, tried from index `p` on: the end of the
      shortest group, if `(UUID` is reached before a `\n` (which `.` does not match). */
  function LazyGroupEnd(line: string, p: nat): (r: Option<nat>)
    requires p <= |line|
    ensures r.Some? ==> p <= r.value && UuidAt(line, r.value)
    ensures r.Some? ==> forall q | p <= q < r.value :: !UuidAt(line, q) && line[q] != '\n'
    ensures r.None? && '\n' !in line[p..] ==> forall q | p <= q < |line| :: !UuidAt(line, q)
    decreases |line| - p
  {
    if UuidAt(line, p) then Some(p)
    else if p == |line| || line[p] == '\n' then None
    else
      assert line[p..] == [line[p]] + line[p + 1..];
      LazyGroupEnd(line, p + 1)
  }

  /** `re.search` from index `i` on: the first start position holding `:` at which the rest
      of the pattern matches, paired with the index where `(UUID` begins. */
  function SearchFrom(line: string, i: nat): (r: Option<(nat, nat)>)
    requires i <= |line|
    ensures r.Some? ==> i <= r.value.0 < r.value.1 && UuidAt(line, r.value.1) && line[r.value.0] == ':'
    ensures r.Some? ==> forall q | r.value.0 < q < r.value.1 :: !UuidAt(line, q) && line[q] != '\n'
    decreases |line| - i
  {
    if i == |line| then None
    else if line[i] == ':' then
      match LazyGroupEnd(line, i + 1)
      case Some(j) => Some((i, j))
      case None => SearchFrom(line, i + 1)
    else SearchFrom(line, i + 1)
  }

  /** The span `re.search(r':(.*?)\(UUID', line)` matches: the colon and the start of `(UUID`. */
  function MatchSpan(line: string): Option<(nat, nat)>
  {
    SearchFrom(line, 0)
  }

  /** The device name the source extracts from a line; `None` where `.group(1)` would fail. */
  function ExtractName(line: string): Option<string>
  {
    match MatchSpan(line)
    case None => None
    case Some((c, j)) => Some(Text.Strip(line[c + 1..j]))
  }

  lemma {:induction false} SearchFromShape(line: string, i: nat)
    requires i <= |line| && '\n' !in line
    ensures SearchFrom(line, i).Some? <==>
              exists c, j :: i <= c < j && UuidAt(line, j) && line[c] == ':'
    ensures SearchFrom(line, i).Some? ==> forall t | i <= t < SearchFrom(line, i).value.0 :: line[t] != ':'
    decreases |line| - i
  {
    if i < |line| {
      SearchFromShape(line, i + 1);
      if line[i] == ':' {
        var g := LazyGroupEnd(line, i + 1);
        if g.Some? {
          assert UuidAt(line, g.value);
        } else {
          assert '\n' !in line[i + 1..];
        }
      }
    }
  }

  /** On a line holding no `\n` (every line `splitlines` yields), the match exists exactly
      when some `:` is followed later by `(UUID`; it starts at the first `:` of the line and
      the group ends at the first `(UUID` after it. */
  lemma MatchSpanShape(line: string)
    requires '\n' !in line
    ensures MatchSpan(line).Some? <==> exists c, j :: 0 <= c < j && UuidAt(line, j) && line[c] == ':'
    ensures MatchSpan(line).Some? ==>
              var (c, j) := MatchSpan(line).value;
              && line[c] == ':' && (forall t | 0 <= t < c :: line[t] != ':')
              && UuidAt(line, j) && (forall q | c < q < j :: !UuidAt(line, q))
  {
    SearchFromShape(line, 0);
  }

  /** The span is pinned down by its two ends: the first `:` of the line, and the first
      `(UUID` after it. */
  lemma SpanAt(line: string, c: nat, j: nat)
    requires '\n' !in line && c < j && UuidAt(line, j) && line[c] == ':'
    requires forall t | 0 <= t < c :: line[t] != ':'
    requires forall q | c < q < j :: !UuidAt(line, q)
    ensures MatchSpan(line) == Some((c, j))
  {
    MatchSpanShape(line);
    var m := MatchSpan(line);
    assert m.value.0 == c;
  }

  /** A line of the documented shape `<index>:<group>(UUID<rest>` yields the stripped group,
      as long as the index holds no `:` and no `(UUID` starts inside the group. */
  lemma ExtractFromListing(index: string, group: string, rest: string)
    requires ':' !in index && forall k | 0 <= k < |group| :: !UuidAt(group + "(UUID", k)
    requires '\n' !in index && '\n' !in group && '\n' !in rest
    ensures ExtractName(index + ":" + group + "(UUID" + rest) == Some(Text.Strip(group))
  {
    var line := index + ":" + group + "(UUID" + rest;
    var c, j := |index|, |index| + 1 + |group|;
    ListingSpan(index, group, rest);
    ExtractAtSpan(line, c, j);
    assert line[c + 1..j] == group;
  }

  lemma ExtractAtSpan(line: string, c: nat, j: nat)
    requires MatchSpan(line) == Some((c, j))
    ensures c < j <= |line| && ExtractName(line) == Some(Text.Strip(line[c + 1..j]))
  {
  }

  lemma ListingSpan(index: string, group: string, rest: string)
    requires ':' !in index && forall k | 0 <= k < |group| :: !UuidAt(group + "(UUID", k)
    requires '\n' !in index && '\n' !in group && '\n' !in rest
    ensures MatchSpan(index + ":" + group + "(UUID" + rest) == Some((|index|, |index| + 1 + |group|))
  {
    var line := index + ":" + group + "(UUID" + rest;
    var c, j := |index|, |index| + 1 + |group|;
    ListingLayout(index, group, rest);
    assert '\n' !in line;
    forall q | c < q < j
      ensures !UuidAt(line, q)
    {
      assert !UuidAt(group + "(UUID", q - c - 1);
    }
    SpanAt(line, c, j);
  }

  lemma ListingLayout(index: string, group: string, rest: string)
    ensures var line := index + ":" + group + "(UUID" + rest;
            var c, j := |index|, |index| + 1 + |group|;
            && line[c] == ':' && UuidAt(line, j) && line[c + 1..j] == group
            && (forall t | 0 <= t < c :: line[t] == index[t])
            && (forall q | c < q < j + 5 :: line[q] == (group + "(UUID")[q - c - 1])
  {
    var line := index + ":" + group + "(UUID" + rest;
    var c, j := |index|, |index| + 1 + |group|;
    assert line[j..j + 5] == "(UUID";
    assert line[c + 1..j] == group;
  }

  /** The tool's documented line shape, `<index>: <name> (UUID: <uuid>)`, yields the name
      whenever the name holds no `(UUID`, no line break and no surrounding whitespace. */
  lemma ExtractListedName(index: string, name: string, uuid: string)
    requires ':' !in index && '\n' !in index
    requires name != [] && !Text.IsSpace(name[0]) && !Text.IsSpace(name[|name| - 1])
    requires (forall k | 0 <= k < |name| :: !UuidAt(name, k)) && '\n' !in name && '\n' !in uuid
    ensures ExtractName(index + ": " + name + " (UUID: " + uuid + ")") == Some(name)
  {
    var group := " " + name + " ";
    var rest := ": " + uuid + ")";
    assert index + ": " + name + " (UUID: " + uuid + ")" == index + ":" + group + "(UUID" + rest;
    assert forall k | 0 <= k < |group| :: group[k] == ' ' || group[k] in name;
    PaddedNoUuid(name);
    assert forall k | 0 <= k < |rest| :: rest[k] in ": )" || rest[k] in uuid;
    ExtractFromListing(index, group, rest);
    StripPadded(name);
  }

  /** The documented example line yields the card's model name. */
  lemma ExtractRtx3090()
    ensures ExtractName("0" + ": " + "NVIDIA GeForce RTX 3090" + " (UUID: " + "GPU-xxxx" + ")")
            == Some("NVIDIA GeForce RTX 3090")
  {
    ExampleParts("0", "NVIDIA GeForce RTX 3090", "GPU-xxxx");
    NoParenNoUuid("NVIDIA GeForce RTX 3090");
    ExtractListedName("0", "NVIDIA GeForce RTX 3090", "GPU-xxxx");
  }

  lemma ExampleParts(index: string, name: string, uuid: string)
    requires index == "0" && name == "NVIDIA GeForce RTX 3090" && uuid == "GPU-xxxx"
    ensures ':' !in index && '\n' !in index && '(' !in name && '\n' !in name && '\n' !in uuid
    ensures name != [] && !Text.IsSpace(name[0]) && !Text.IsSpace(name[|name| - 1])
  {
  }

  /** A name free of `(UUID`, padded by one space on each side, still holds no `(UUID`
      before the `(UUID` that follows it. */
  lemma PaddedNoUuid(name: string)
    requires forall k | 0 <= k < |name| :: !UuidAt(name, k)
    ensures var g := " " + name + " ";
            forall k | 0 <= k < |g| :: !UuidAt(g + "(UUID", k)
  {
    var g := " " + name + " ";
    var u := g + "(UUID";
    forall k | 0 <= k < |g|
      ensures !UuidAt(u, k)
    {
      if 1 <= k <= |name| && k + 4 <= |name| {
        assert !UuidAt(name, k - 1);
        assert u[k..k + 5] == name[k - 1..k + 4];
      } else if 1 <= k <= |name| {
        assert u[|name| + 1] == ' ';
      }
    }
  }

  lemma StripPadded(s: string)
    requires s != [] && !Text.IsSpace(s[0]) && !Text.IsSpace(s[|s| - 1])
    ensures Text.Strip(" " + s + " ") == s
  {
    var t := " " + s + " ";
    assert t[1] == s[0] && t[|t| - 2] == s[|s| - 1];
    assert Text.SkipSpaces(t, 1) == 1;
    assert Text.SkipSpaces(t, 0) == 1;
    assert Text.DropSpaces(t, 1, |t| - 1) == |t| - 1;
    assert Text.DropSpaces(t, 1, |t|) == |t| - 1;
    assert t[1..|t| - 1] == s;
  }

  /** A name without `(` holds no `(UUID`. */
  lemma NoParenNoUuid(name: string)
    requires '(' !in name
    ensures forall k | 0 <= k < |name| :: !UuidAt(name, k)
  {
  }

  /** A line without `(UUID` after a colon yields no name (the source then fails). */
  lemma NoUuidNoName(line: string)
    requires '\n' !in line
    requires forall j | 0 <= j < |line| :: !UuidAt(line, j)
    ensures ExtractName(line) == None
  {
    MatchSpanShape(line);
  }
}
