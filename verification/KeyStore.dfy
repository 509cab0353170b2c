/** The key registry object over its file. */
module KeyStore {
  import opened Bytes
  import opened Pieces
  import opened Text
  import opened KeyLine
  import opened KeyFile

  method ReadFile(text: string, decode: Decoder) returns (r: Option<Index>)
    ensures r == ParseFile(text, LineParser(decode))
  {
    var ls := Lines(text);
    ghost var es := Effects(TrimmedLines(text), LineParser(decode));
    TrimmedIsTrim(text);
    var out: Index := map[];
    var i := 0;
    while i < |ls|
      invariant 0 <= i <= |ls| == |es| && Load(es[i..], out) == Load(es, map[])
    {
      var t := Trim(ls[i]);
      assert es[i] == EffectOf(t, LineParser(decode)) && es[i..][1..] == es[i + 1..];
      if !Skipped(t) {
        var p := ReadLine(t, decode);
        if p.None? {
          return None;
        }
        out := out[p.value.0 := p.value.1];
      }
      i := i + 1;
    }
    return Some(out);
  }

  method IsTarget(line: string, target: PubKey, decode: Decoder) returns (hit: bool)
    ensures hit <==> IsEntryOf(line, target, LineParser(decode))
  {
    var t := Trim(line);
    if Skipped(t) {
      return false;
    }
    var p := ReadLine(t, decode);
    return p.Some? && p.value.0 == target;
  }

  lemma UnlinesStep(out: string, l: string, rest: seq<string>)
    ensures out + Unlines([l] + rest) == (out + l + ['\n']) + Unlines(rest)
  {
    assert ([l] + rest)[1..] == rest;
  }

  lemma WithoutAt(ls: seq<string>, i: nat, target: PubKey, parse: Parser)
    requires i < |ls|
    ensures IsEntryOf(ls[i], target, parse) ==> Without(ls[i..], target, parse) == Without(ls[i + 1..], target, parse)
    ensures !IsEntryOf(ls[i], target, parse) ==>
              Without(ls[i..], target, parse) == [ls[i]] + Without(ls[i + 1..], target, parse)
  {
    assert ls[i..][1..] == ls[i + 1..];
  }

  lemma MentionsAt(ls: seq<string>, i: nat, target: PubKey, parse: Parser)
    requires i < |ls|
    ensures Mentions(ls[..i + 1], target, parse) <==> Mentions(ls[..i], target, parse) || IsEntryOf(ls[i], target, parse)
  {
    var a, b := ls[..i], ls[..i + 1];
    assert forall k :: 0 <= k < i ==> a[k] == b[k];
    assert b[i] == ls[i];
  }

  /** The lines that are not entries of the key, each ended, and whether any was. */
  method FilterLines(text: string, target: PubKey, decode: Decoder) returns (out: string, removed: bool)
    ensures out == Removed(text, target, LineParser(decode))
    ensures removed <==> Mentions(Lines(text), target, LineParser(decode))
  {
    var ls := Lines(text);
    out, removed := FilterAll(ls, target, decode);
  }

  method FilterAll(ls: seq<string>, target: PubKey, decode: Decoder) returns (out: string, removed: bool)
    ensures out == Unlines(Without(ls, target, LineParser(decode)))
    ensures removed <==> Mentions(ls, target, LineParser(decode))
  {
    ghost var parse := LineParser(decode);
    out := "";
    removed := false;
    var i := 0;
    ghost var goal := Unlines(Without(ls, target, parse));
    assert ls[0..] == ls && "" + goal == goal;
    while i < |ls|
      invariant 0 <= i <= |ls| && out + Unlines(Without(ls[i..], target, parse)) == goal
      invariant removed <==> Mentions(ls[..i], target, parse)
    {
      WithoutAt(ls, i, target, parse);
      MentionsAt(ls, i, target, parse);
      var hit := IsTarget(ls[i], target, decode);
      if hit {
        removed := true;
      } else {
        UnlinesStep(out, ls[i], Without(ls[i + 1..], target, parse));
        out := out + ls[i] + ['\n'];
      }
      i := i + 1;
    }
    assert ls[i..] == [] && ls[..i] == ls && out + "" == out;
  }

  method Append(text: string, line: string) returns (out: string)
    ensures out == Appended(text, line)
  {
    out := text;
    if out != "" && !EndsLine(out) {
      out := out + ['\n'];
    }
    assert out == Ended(text);
    out := out + line;
    if !EndsLine(line) {
      out := out + ['\n'];
      assert out == Ended(text) + (line + ['\n']);
    }
  }

  /** What a caller can check of an entry line before appending it. */
  ghost predicate OneEntry(line: string, decode: Decoder) {
    ParseLine(line, decode).Some? ==>
      var (key, entry) := ParseLine(line, decode).value;
      Amounts(ArgumentEffects(line, LineParser(decode)), key, entry)
  }

  lemma AppendKeeps(text: string, line: string, m: Index, decode: Decoder)
    requires ParseFile(text, LineParser(decode)) == Some(m) && ParseLine(line, decode).Some?
    ensures ParseFile(Appended(text, line), LineParser(decode)) == Load(ArgumentEffects(line, LineParser(decode)), m)
    ensures OneEntry(line, decode) ==>
              ParseFile(Appended(text, line), LineParser(decode))
              == Some(m[ParseLine(line, decode).value.0 := ParseLine(line, decode).value.1])
    ensures SingleLine(line) ==> OneEntry(line, decode)
  {
    var (key, entry) := ParseLine(line, decode).value;
    AppendLoads(text, line, m, LineParser(decode));
    if SingleLine(line) { SingleLineAmounts(line, decode); }
    if OneEntry(line, decode) { AppendAgrees(text, line, m, key, entry, LineParser(decode)); }
  }

  class KeyRegistry {
    const decode: Decoder
    var file: string
    var entries: Index
    var sent: seq<PubKey>  // every key broadcast as revoked, oldest first

    constructor (text: string, m: Index, decode: Decoder)
      ensures file == text && entries == m && sent == [] && this.decode == decode
    {
      this.decode := decode;
      file := text;
      entries := m;
      sent := [];
    }

    /** Memory is what the file says. */
    ghost predicate Agrees()
      reads this
    {
      ParseFile(file, LineParser(decode)) == Some(entries)
    }

    /** Opening succeeds exactly on readable files and starts in agreement. */
    static method Open(text: string, decode: Decoder) returns (r: Option<KeyRegistry>)
      ensures r.Some? <==> ParseFile(text, LineParser(decode)).Some?
      ensures r.Some? ==> fresh(r.value) && r.value.file == text && r.value.decode == decode && r.value.Agrees()
    {
      var m := ReadFile(text, decode);
      if m.None? {
        return None;
      }
      var k := new KeyRegistry(text, m.value, decode);
      return Some(k);
    }

    /** Append one entry; a line that is not an entry changes nothing. */
    method AppendLine(line: string) returns (r: Option<string>)
      modifies this
      ensures sent == old(sent)
      ensures match ParseLine(line, decode)
              case None => r == None && file == old(file) && entries == old(entries)
              case Some((key, entry)) =>
                r == Some(TrimEnd(line)) && file == Appended(old(file), line) && entries == old(entries)[key := entry]
      ensures old(Agrees()) && (SingleLine(line) || OneEntry(line, decode)) ==> Agrees()
      ensures old(Agrees()) && r.Some? ==>
                (Agrees() <==> Load(ArgumentEffects(line, LineParser(decode)), old(entries)) == Some(entries))
    {
      var p := ReadLine(line, decode);
      if p.None? {
        return None;
      }
      if Agrees() { AppendKeeps(file, line, entries, decode); }
      file := Append(file, line);
      entries := entries[p.value.0 := p.value.1];
      return Some(TrimEnd(line));
    }

    /** Broadcast each key once, in no particular order. */
    method Broadcast(keys: set<PubKey>)
      modifies this`sent
      ensures multiset(sent) == multiset(old(sent)) + multiset(keys) && old(sent) <= sent
    {
      var rest := keys;
      while rest != {}
        invariant rest <= keys && old(sent) <= sent
        invariant multiset(sent) + multiset(rest) == multiset(old(sent)) + multiset(keys)
        decreases rest
      {
        var k :| k in rest;
        sent := sent + [k];
        rest := rest - {k};
      }
    }

    /** First the keys that vanished, then those that changed. */
    method Announce(before: Index, after: Index)
      modifies this`sent
      ensures multiset(sent) == multiset(old(sent)) + multiset(Revoked(before, after)) && old(sent) <= sent
    {
      var removed := set k | k in before && k !in after;
      var modified := set k | k in after && k in before && !SameAuthorization(before[k], after[k]);
      assert removed + modified == Revoked(before, after);
      SplitMultiset(removed, modified);
      Broadcast(removed);
      Broadcast(modified);
    }

    /**
      Reloading a readable file restores agreement and broadcasts exactly the
      keys that vanished or whose authorization changed; an unreadable file
      changes nothing.
     */
    method Reload() returns (ok: bool)
      modifies this`entries, this`sent
      ensures ok <==> ParseFile(file, LineParser(decode)).Some?
      ensures ok ==> Agrees() && old(sent) <= sent
                     && multiset(sent) == multiset(old(sent)) + multiset(Revoked(old(entries), entries))
      ensures ok ==> forall k :: multiset(sent)[k] == multiset(old(sent))[k] +
                       if k in old(entries) && (k !in entries || Differs(old(entries)[k], entries[k])) then 1 else 0
      ensures !ok ==> entries == old(entries) && sent == old(sent)
    {
      var m := ReadFile(file, decode);
      if m.None? {
        return false;
      }
      var before := entries;
      entries := m.value;
      Announce(before, m.value);
      forall k ensures k in Revoked(before, entries) <==> k in before && (k !in entries || Differs(before[k], entries[k])) {
        RevokedIff(before, entries, k);
      }
      return true;
    }

    /**
      In agreement, removal drops exactly the target's entry, stays in
      agreement and broadcasts the target alone, once; a key without an entry
      changes nothing. A file with an unreadable line is still rewritten, but
      memory keeps its entries.
     */
    method RemovePubkey(target: PubKey) returns (r: Option<bool>)
      modifies this
      ensures old(Agrees()) ==>
                && Agrees() && entries == old(entries) - {target} && r == Some(target in old(entries))
                && sent == (if target in old(entries) then old(sent) + [target] else old(sent))
      ensures !Mentions(Lines(old(file)), target, LineParser(decode)) ==>
                r == Some(false) && file == old(file) && entries == old(entries) && sent == old(sent)
      ensures Mentions(Lines(old(file)), target, LineParser(decode)) ==> file == Removed(old(file), target, LineParser(decode))
      ensures r.None? ==> entries == old(entries) && sent == old(sent)
      ensures r.None? <==> Mentions(Lines(old(file)), target, LineParser(decode)) && ParseFile(file, LineParser(decode)).None?
      ensures r == Some(true) ==> Agrees()
    {
      ghost var agreed := Agrees();
      ghost var m := entries;
      if agreed { RemoveAgrees(file, entries, target, LineParser(decode)); }
      var out, removed := FilterLines(file, target, decode);
      if removed {
        file := out;
        var ok := Reload();
        if !ok {
          return None;
        }
        if agreed {
          RevokedOne(m, target);
          Appends(old(sent), sent, target);
        }
        return Some(true);
      }
      if agreed { assert m - {target} == m; }
      return Some(false);
    }
  }

  lemma SplitMultiset<T>(a: set<T>, b: set<T>)
    requires a !! b
    ensures multiset(a) + multiset(b) == multiset(a + b)
  {
  }

  lemma RevokedOne(m: Index, target: PubKey)
    requires target in m
    ensures Revoked(m, m - {target}) == {target}
  {
  }

  lemma Appends(s: seq<PubKey>, t: seq<PubKey>, k: PubKey)
    requires s <= t && multiset(t) == multiset(s) + multiset({k})
    ensures t == s + [k]
  {
    var d := t[|s|..];
    assert t == s + d;
    assert multiset(t) == multiset(s) + multiset(d);
    forall x ensures multiset(d)[x] == multiset({k})[x] {
      assert multiset(t)[x] == multiset(s)[x] + multiset(d)[x];
    }
    assert multiset(d) == multiset({k});
    assert |multiset(d)| == |d| == 1;
    assert d[0] in multiset(d);
  }
}
