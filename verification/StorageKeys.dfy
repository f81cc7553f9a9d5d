/**
 * Object keys: generateKey of src/shared/services/storage.service.ts, over the parts of Node's
 * POSIX path module that it uses. The random id and the date are parameters.
 */
module StorageKeys {
  import opened Prelude

  predicate Lacks(s: string, c: char) {
    forall i :: 0 <= i < |s| ==> s[i] != c
  }

  // ---- paths -------------------------------------------------------------------------------

  function WithoutTrailingSlashes(path: string): string {
    if path != "" && path[|path| - 1] == '/' then WithoutTrailingSlashes(path[..|path| - 1]) else path
  }

  /** What follows the last c, or all of s. */
  function AfterLast(s: string, c: char): (r: string)
    ensures Lacks(r, c)
  {
    if s == "" || s[|s| - 1] == c then "" else AfterLast(s[..|s| - 1], c) + [s[|s| - 1]]
  }

  /** path.basename without a suffix to remove. */
  function BaseNameOf(path: string): string {
    AfterLast(WithoutTrailingSlashes(path), '/')
  }

  predicate EndsWith(s: string, suffix: string) {
    |suffix| <= |s| && s[|s| - |suffix|..] == suffix
  }

  /** path.extname: from the last dot of the last component, unless that dot starts the name or the name is "..". */
  function ExtName(path: string): (ext: string)
    ensures Lacks(ext, '/') && EndsWith(BaseNameOf(path), ext)
    ensures ext != "" ==> ext[0] == '.' && Lacks(ext[1..], '.') && |ext| < |BaseNameOf(path)|
    ensures ext == "" ==> BaseNameOf(path) in ["", ".."] || Lacks(BaseNameOf(path)[1..], '.')
  {
    ExtensionOf(BaseNameOf(path))
  }

  function ExtensionOf(name: string): (ext: string)
    ensures EndsWith(name, ext)
    ensures ext != "" ==> ext[0] == '.' && Lacks(ext[1..], '.') && |ext| < |name|
    ensures ext == "" ==> name in ["", ".."] || Lacks(name[1..], '.')
  {
    var tail := AfterLast(name, '.');
    AfterLastIsTail(name, '.');
    var dot := |name| - |tail| - 1;
    FromTheDot(name, tail);
    hide AfterLast, Lacks, EndsWith;
    if dot <= 0 || name == ".." then "" else name[dot..]
  }

  /** A tail without dots, and the dot before it. */
  lemma FromTheDot(name: string, tail: string)
    requires EndsWith(name, tail) && Lacks(tail, '.') && (|tail| < |name| ==> name[|name| - |tail| - 1] == '.')
    ensures var dot := |name| - |tail| - 1;
            && EndsWith(name, "")
            && (dot <= 0 && name != "" ==> Lacks(name[1..], '.'))
            && (dot > 0 ==> EndsWith(name, name[dot..]) && name[dot..][1..] == tail)
  {
    var dot := |name| - |tail| - 1;
    assert name[|name|..] == "";
    if dot > 0 {
      assert name[dot..][1..] == name[dot + 1..];
    } else if dot == 0 {
      assert name[1..] == tail;
    } else {
      assert name == tail;
    }
  }

  /** One more character at the end of a string is one more at the end of its tail. */
  lemma TailGrows(s: string, r: string, c: char)
    requires s != "" && EndsWith(s[..|s| - 1], r) && (|r| < |s| - 1 ==> s[|s| - |r| - 2] == c)
    ensures EndsWith(s, r + [s[|s| - 1]]) && (|r| + 1 < |s| ==> s[|s| - |r| - 2] == c)
  {
    var init := s[..|s| - 1];
    assert s[|s| - |r| - 1..] == init[|init| - |r|..] + [s[|s| - 1]];
  }

  lemma {:induction false} AfterLastIsTail(s: string, c: char)
    ensures var r := AfterLast(s, c); EndsWith(s, r) && (|r| < |s| ==> s[|s| - |r| - 1] == c)
  {
    if s != "" && s[|s| - 1] != c {
      var init := s[..|s| - 1];
      AfterLastIsTail(init, c);
      hide EndsWith;
      TailGrows(s, AfterLast(init, c), c);
    }
  }

  /** path.basename with the extension removed. */
  function StemOf(path: string): string {
    BaseNameOf(path)[..|BaseNameOf(path)| - |ExtName(path)|]
  }

  /** s.split(c). */
  function Split(s: string, c: char): (parts: seq<string>)
    ensures parts != []
  {
    if s == "" then [""]
    else
      var init := Split(s[..|s| - 1], c);
      if s[|s| - 1] == c then init + [""]
      else init[..|init| - 1] + [init[|init| - 1] + [s[|s| - 1]]]
  }

  lemma {:induction false} LastPartIsAfterLast(s: string, c: char)
    ensures Split(s, c)[|Split(s, c)| - 1] == AfterLast(s, c)
  {
    if s != "" { LastPartIsAfterLast(s[..|s| - 1], c); }
  }

  // ---- keys --------------------------------------------------------------------------------

  function LowerAlnum(c: char): char {
    if 'A' <= c <= 'Z' then (c as int + 32) as char
    else if 'a' <= c <= 'z' || '0' <= c <= '9' then c
    else '-'
  }

  predicate IsStemChar(c: char) {
    'a' <= c <= 'z' || '0' <= c <= '9' || c == '-'
  }

  /** Everything but ASCII letters and digits becomes a dash; letters become lower case. */
  function Sanitized(base: string): (r: string)
    ensures |r| == |base| && forall i :: 0 <= i < |r| ==> IsStemChar(r[i])
    ensures forall i :: 0 <= i < |r| && IsStemChar(base[i]) ==> r[i] == base[i]
    ensures forall i :: 0 <= i < |r| && 'A' <= base[i] <= 'Z' ==> r[i] as int == base[i] as int + 32
    ensures forall i :: 0 <= i < |r| && !IsStemChar(base[i]) && !('A' <= base[i] <= 'Z') ==> r[i] == '-'
  {
    seq(|base|, i requires 0 <= i < |base| => LowerAlnum(base[i]))
  }

  /** The prefix with exactly the slash it had or else one more. */
  function PrefixPath(prefix: Option<string>): (r: string)
    ensures prefix.GetOr("") == "" ==> r == ""
    ensures prefix.GetOr("") != "" ==> EndsWith(r, "/") && (r == prefix.value || (r == prefix.value + "/" && !EndsWith(prefix.value, "/")))
  {
    if prefix.None? || prefix.value == "" then ""
    else
      var p := prefix.value;
      (if EndsWith(p, "/") then p[..|p| - 1] else p) + "/"
  }

  function GenerateKey(filename: string, prefix: Option<string>, date: string, id: string): string {
    PrefixPath(prefix) + date + "/" + id + "-" + Sanitized(StemOf(filename)) + ExtName(filename)
  }

  /** The date part of an ISO timestamp of a four-digit year. */
  predicate IsDate(d: string) {
    |d| == 10 && forall i :: 0 <= i < 10 ==> if i in {4, 7} then d[i] == '-' else '0' <= d[i] <= '9'
  }

  /** The text form of a UUID. */
  predicate IsUuid(id: string) {
    |id| == 36 && forall i :: 0 <= i < 36 ==>
      if i in {8, 13, 18, 23} then id[i] == '-' else '0' <= id[i] <= '9' || 'a' <= id[i] <= 'f'
  }

  datatype Parts = Parts(prefixPath: string, date: string, id: string, stem: string, ext: string)

  predicate WellFormed(p: Parts) {
    && (p.prefixPath == "" || EndsWith(p.prefixPath, "/"))
    && IsDate(p.date) && IsUuid(p.id)
    && (forall i :: 0 <= i < |p.stem| ==> IsStemChar(p.stem[i]))
    && Lacks(p.ext, '/') && (p.ext != "" ==> p.ext[0] == '.' && Lacks(p.ext[1..], '.'))
  }

  function Render(p: Parts): string {
    p.prefixPath + p.date + "/" + p.id + "-" + p.stem + p.ext
  }

  function PartsOf(filename: string, prefix: Option<string>, date: string, id: string): Parts {
    Parts(PrefixPath(prefix), date, id, Sanitized(StemOf(filename)), ExtName(filename))
  }

  /** What precedes the first dot. */
  function BeforeDot(s: string): string {
    if s == "" || s[0] == '.' then "" else [s[0]] + BeforeDot(s[1..])
  }

  function ParseKey(key: string): Option<Parts> {
    var name := AfterLast(key, '/');
    AfterLastIsTail(key, '/');
    var directory := key[..|key| - |name|];
    if |directory| < 11 || |name| < 37 then None
    else
      var rest := name[37..];
      var stem := BeforeDot(rest);
      BeforeDotIsPrefix(rest);
      Some(Parts(directory[..|directory| - 11], directory[|directory| - 11..|directory| - 1], name[..36],
                 stem, rest[|stem|..]))
  }

  lemma {:induction false} BeforeDotIsPrefix(s: string)
    ensures BeforeDot(s) <= s
  {
    if s != "" && s[0] != '.' { BeforeDotIsPrefix(s[1..]); }
  }

  lemma {:induction false} AfterLastOfJoin(s: string, c: char, tail: string)
    requires Lacks(tail, c)
    ensures AfterLast(s + [c] + tail, c) == tail
  {
    var whole := s + [c] + tail;
    if tail == "" {
      assert whole[|whole| - 1] == c;
    } else {
      var init := tail[..|tail| - 1];
      AfterLastOfJoin(s, c, init);
      assert whole[..|whole| - 1] == s + [c] + init;
    }
  }

  lemma {:induction false} BeforeDotOfJoin(stem: string, ext: string)
    requires Lacks(stem, '.') && (ext == "" || ext[0] == '.')
    ensures BeforeDot(stem + ext) == stem
  {
    if stem != "" {
      BeforeDotOfJoin(stem[1..], ext);
      assert (stem + ext)[1..] == stem[1..] + ext;
    } else {
      assert stem + ext == ext;
    }
  }

  function NamePart(p: Parts): string {
    p.id + "-" + p.stem + p.ext
  }

  function DirectoryPart(p: Parts): string {
    p.prefixPath + p.date + "/"
  }

  lemma NamePartIsLast(p: Parts)
    requires WellFormed(p)
    ensures Render(p) == DirectoryPart(p) + NamePart(p)
    ensures AfterLast(Render(p), '/') == NamePart(p) && Lacks(NamePart(p), '/')
  {
    var name := NamePart(p);
    assert Lacks(name, '/');
    assert Render(p) == p.prefixPath + p.date + ['/'] + name;
    AfterLastOfJoin(p.prefixPath + p.date, '/', name);
  }

  lemma Cut(a: string, b: string)
    ensures (a + b)[..|a|] == a && (a + b)[|a|..] == b
  {}

  lemma DirectoryReadBack(p: Parts)
    requires |p.date| == 10
    ensures var d := DirectoryPart(p);
            |d| >= 11 && d[..|d| - 11] == p.prefixPath && d[|d| - 11..|d| - 1] == p.date
  {}

  lemma NameReadBack(p: Parts)
    requires |p.id| == 36
    ensures |NamePart(p)| >= 37 && NamePart(p)[..36] == p.id && NamePart(p)[37..] == p.stem + p.ext
  {}

  lemma StemReadBack(p: Parts)
    requires WellFormed(p)
    ensures BeforeDot(p.stem + p.ext) == p.stem && (p.stem + p.ext)[|p.stem|..] == p.ext
  {
    assert Lacks(p.stem, '.');
    BeforeDotOfJoin(p.stem, p.ext);
  }

  /** Reading a key back gives its parts. */
  lemma KeysParseBack(p: Parts)
    requires WellFormed(p)
    ensures ParseKey(Render(p)) == Some(p)
  {
    NamePartIsLast(p);
    DirectoryReadBack(p);
    NameReadBack(p);
    StemReadBack(p);
    hide AfterLast, BeforeDot, Render, DirectoryPart, NamePart, WellFormed, Lacks;
    Cut(DirectoryPart(p), NamePart(p));
  }

  /**
   * Every generated key parses back, uniquely, into the prefix with its slash, the date, the
   * UUID, the sanitised stem and the extension, for arbitrary file names.
   */
  lemma GeneratedKeysParseBack(filename: string, prefix: Option<string>, date: string, id: string)
    requires IsDate(date) && IsUuid(id)
    ensures ParseKey(GenerateKey(filename, prefix, date, id)) == Some(PartsOf(filename, prefix, date, id))
    ensures WellFormed(PartsOf(filename, prefix, date, id))
    ensures forall p :: WellFormed(p) && Render(p) == GenerateKey(filename, prefix, date, id) ==>
              p == PartsOf(filename, prefix, date, id)
  {
    var parts := PartsOf(filename, prefix, date, id);
    KeysParseBack(parts);
    forall p | WellFormed(p) && Render(p) == GenerateKey(filename, prefix, date, id) ensures p == parts {
      KeysParseBack(p);
    }
  }

  /** Distinct UUIDs give distinct keys, whatever the file names, prefixes and dates. */
  lemma DistinctIdsGiveDistinctKeys(
    filename: string, prefix: Option<string>, date: string, id: string,
    filename': string, prefix': Option<string>, date': string, id': string)
    requires IsDate(date) && IsDate(date') && IsUuid(id) && IsUuid(id') && id != id'
    ensures GenerateKey(filename, prefix, date, id) != GenerateKey(filename', prefix', date', id')
  {
    GeneratedKeysParseBack(filename, prefix, date, id);
    GeneratedKeysParseBack(filename', prefix', date', id');
  }

  lemma NoTrailingSlash(directory: string, name: string)
    requires name != "" && Lacks(name, '/')
    ensures WithoutTrailingSlashes(directory + name) == directory + name
  {
    var key := directory + name;
    assert key[|key| - 1] == name[|name| - 1];
  }

  /** path.basename(key) and key.split('/').pop() are the same name: the part of the key after its directory. */
  lemma KeyNamesAgree(filename: string, prefix: Option<string>, date: string, id: string)
    requires IsDate(date) && IsUuid(id)
    ensures var key := GenerateKey(filename, prefix, date, id);
            && BaseNameOf(key) == Split(key, '/')[|Split(key, '/')| - 1]
            && BaseNameOf(key) == NamePart(PartsOf(filename, prefix, date, id))
  {
    var p := PartsOf(filename, prefix, date, id);
    GeneratedKeysParseBack(filename, prefix, date, id);
    NamePartIsLast(p);
    NameReadBack(p);
    LastPartIsAfterLast(Render(p), '/');
    assert GenerateKey(filename, prefix, date, id) == Render(p);
    hide AfterLast, Split, Lacks, Render, NamePart, DirectoryPart, GenerateKey, WithoutTrailingSlashes;
    NoTrailingSlash(DirectoryPart(p), NamePart(p));
  }

  /** The last dot of such a name is the one its extension begins with. */
  lemma TailOfName(p: Parts)
    requires WellFormed(p)
    ensures AfterLast(NamePart(p), '.') == if p.ext == "" then NamePart(p) else p.ext[1..]
  {
    var front := p.id + "-" + p.stem;
    assert Lacks(front, '.');
    if p.ext == "" {
      assert NamePart(p) == front;
      NoneNoTail(front, '.');
    } else {
      assert NamePart(p) == front + ['.'] + p.ext[1..];
      AfterLastOfJoin(front, '.', p.ext[1..]);
    }
  }

  /** A key has the extension of the file it was made for. */
  lemma KeyKeepsExtension(filename: string, prefix: Option<string>, date: string, id: string)
    requires IsDate(date) && IsUuid(id)
    ensures ExtName(GenerateKey(filename, prefix, date, id)) == ExtName(filename)
  {
    hide AfterLast, GenerateKey, Lacks;
    var p := PartsOf(filename, prefix, date, id);
    GeneratedKeysParseBack(filename, prefix, date, id);
    KeyNamesAgree(filename, prefix, date, id);
    TailOfName(p);
    assert NamePart(p) == (p.id + "-" + p.stem) + p.ext;
    Cut(p.id + "-" + p.stem, p.ext);
  }

  lemma {:induction false} NoneNoTail(s: string, c: char)
    requires Lacks(s, c)
    ensures AfterLast(s, c) == s
  {
    if s != "" {
      NoneNoTail(s[..|s| - 1], c);
      assert s == s[..|s| - 1] + [s[|s| - 1]];
    }
  }

  // ---- the pieces of a file name -----------------------------------------------------------

  predicate OnlySlashes(s: string) {
    forall i :: 0 <= i < |s| ==> s[i] == '/'
  }

  lemma {:induction false} SlashesFallOff(s: string, slashes: string)
    requires OnlySlashes(slashes)
    ensures WithoutTrailingSlashes(s + slashes) == WithoutTrailingSlashes(s)
  {
    if slashes == "" {
      assert s + slashes == s;
    } else {
      SlashesFallOff(s, slashes[..|slashes| - 1]);
      assert (s + slashes)[..|s + slashes| - 1] == s + slashes[..|slashes| - 1];
    }
  }

  /** basename: what stands between the last slash and any slashes at the end; nothing for slashes alone. */
  lemma BaseNameIs(directory: string, name: string, slashes: string)
    requires (directory == "" || EndsWith(directory, "/")) && Lacks(name, '/') && OnlySlashes(slashes)
    requires name == "" ==> directory == ""
    ensures BaseNameOf(directory + name + slashes) == name
  {
    SlashesFallOff(directory + name, slashes);
    if name == "" {
      assert directory + name == "";
    } else {
      NoTrailingSlash(directory, name);
      if directory == "" {
        assert directory + name == name;
        NoneNoTail(name, '/');
      } else {
        assert directory + name == directory[..|directory| - 1] + ['/'] + name;
        AfterLastOfJoin(directory[..|directory| - 1], '/', name);
      }
    }
  }

  /** A file name cut into stem and extension: no dot but a first one in a name without extension, else the last dot. */
  predicate IsCut(stem: string, ext: string) {
    if ext == "" then stem in ["", ".."] || Lacks(stem[1..], '.')
    else stem != "" && stem + ext != ".." && ext[0] == '.' && Lacks(ext[1..], '.')
  }

  lemma ExtensionIs(stem: string, ext: string)
    requires IsCut(stem, ext)
    ensures ExtensionOf(stem + ext) == ext
  {
    var name := stem + ext;
    if ext == "" {
      assert name == stem;
      if stem != "" && stem != ".." {
        if stem[0] == '.' {
          assert stem == "" + ['.'] + stem[1..];
          AfterLastOfJoin("", '.', stem[1..]);
        } else {
          NoneNoTail(stem, '.');
        }
      }
    } else {
      assert name == stem + ['.'] + ext[1..];
      AfterLastOfJoin(stem, '.', ext[1..]);
    }
  }

  /** Whatever is left of the base name without the extension is what the key carries, sanitised. */
  lemma KeyCarriesStem(filename: string, prefix: Option<string>, date: string, id: string, stem: string)
    requires BaseNameOf(filename) == stem + ExtName(filename)
    ensures GenerateKey(filename, prefix, date, id) ==
              PrefixPath(prefix) + date + "/" + id + "-" + Sanitized(stem) + ExtName(filename)
  {
    assert BaseNameOf(filename)[..|BaseNameOf(filename)| - |ExtName(filename)|] == stem;
  }

  /**
   * The key of a file name given in pieces: directories and trailing slashes are dropped, the stem
   * is sanitised, and the extension is kept as it is.
   */
  lemma KeyOfPieces(directory: string, stem: string, ext: string, slashes: string, prefix: string, date: string, id: string)
    requires (directory == "" || EndsWith(directory, "/")) && OnlySlashes(slashes)
    requires stem != "" && Lacks(stem, '/') && Lacks(ext, '/') && IsCut(stem, ext)
    requires prefix != "" && !EndsWith(prefix, "/")
    ensures var filename := directory + (stem + ext) + slashes;
            && GenerateKey(filename, Some(prefix), date, id) == prefix + "/" + date + "/" + id + "-" + Sanitized(stem) + ext
            && GenerateKey(filename, Some(prefix + "/"), date, id) == prefix + "/" + date + "/" + id + "-" + Sanitized(stem) + ext
            && GenerateKey(filename, None, date, id) == date + "/" + id + "-" + Sanitized(stem) + ext
  {
    var filename := directory + (stem + ext) + slashes;
    BaseNameIs(directory, stem + ext, slashes);
    ExtensionIs(stem, ext);
    hide BaseNameOf, ExtensionOf, GenerateKey, Sanitized, IsCut, OnlySlashes, Lacks;
    KeyCarriesStem(filename, Some(prefix), date, id, stem);
    KeyCarriesStem(filename, Some(prefix + "/"), date, id, stem);
    KeyCarriesStem(filename, None, date, id, stem);
    assert PrefixPath(Some(prefix)) == prefix + "/" && PrefixPath(Some(prefix + "/")) == prefix + "/" && PrefixPath(None) == "";
    assert "" + date == date;
  }

  /** split: the parts lack the separator, and joined by it they are the text again. */
  function Joined(parts: seq<string>, c: char): string
    requires parts != []
  {
    if |parts| == 1 then parts[0] else Joined(parts[..|parts| - 1], c) + [c] + parts[|parts| - 1]
  }

  lemma {:induction false} SplitIsUndoneByJoining(s: string, c: char)
    ensures Joined(Split(s, c), c) == s
    ensures forall i :: 0 <= i < |Split(s, c)| ==> Lacks(Split(s, c)[i], c)
  {
    if s != "" {
      var init, last := s[..|s| - 1], s[|s| - 1];
      SplitIsUndoneByJoining(init, c);
      var parts, before := Split(s, c), Split(init, c);
      if last == c {
        assert parts[..|parts| - 1] == before;
      } else {
        assert parts[..|parts| - 1] == before[..|before| - 1];
      }
      assert s == init + [last];
    }
  }
}
