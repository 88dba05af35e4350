/** `formatImportPath` (index.ts): turns the path of a route file, relative to
    the parent of the routes root, into the module reference that the generated
    file imports. */
module ImportPath {

  import opened Paths

  /** `validExtensions`: the file extensions a route module may have. The
      regular expression `\.(tsx|ts|js|jsx)$` strips exactly this set. */
  const SourceExtensions: seq<string> := [".tsx", ".jsx", ".ts", ".js"]

  /** Does `s` end in one of the source extensions? */
  predicate HasSourceExtension(s: string) {
    IsSuffix(".tsx", s) || IsSuffix(".jsx", s) || IsSuffix(".ts", s) || IsSuffix(".js", s)
  }

  /** The suffix of `s` that `\.(tsx|ts|js|jsx)$` matches, or "" when it
      matches nothing. At most one of the four can be a suffix of `s`. */
  function MatchedExtension(s: string): (ext: string)
    ensures ext == "" || ext in SourceExtensions
    ensures IsSuffix(ext, s)
    ensures ext == "" <==> !HasSourceExtension(s)
  {
    if IsSuffix(".tsx", s) then ".tsx"
    else if IsSuffix(".ts", s) then ".ts"
    else if IsSuffix(".js", s) then ".js"
    else if IsSuffix(".jsx", s) then ".jsx"
    else ""
  }

  /** `s` with one trailing source extension removed, if it has one. */
  function StripExtension(s: string): (r: string)
    ensures r + MatchedExtension(s) == s
  {
    s[..|s| - |MatchedExtension(s)|]
  }

  /** `.replace(/^src\//, '')`: drops one leading "src/". */
  function StripSrcPrefix(s: string): (r: string)
    ensures IsPrefix("src/", s) ==> "src/" + r == s
    ensures !IsPrefix("src/", s) ==> r == s
  {
    if IsPrefix("src/", s) then s[4..] else s
  }

  /** `formatImportPath`, given the already relative path `rel` (the source
      obtains it from `path.relative`). An empty alias yields a "./" relative
      reference; a non-empty alias is prepended instead, after one leading
      "src/" is dropped. Separators come out as "/" whatever `rel` uses. */
  function FormatImportPath(rel: string, alias: string): (r: string)
    ensures alias == "" ==> IsPrefix("./", r)
    ensures alias != "" ==> IsPrefix(alias, r)
    ensures '\\' !in alias ==> '\\' !in r
  {
    var noExt := StripExtension(ReplaceBackslashes(rel));
    RewrittenPathAvoidsBackslash(rel);
    if alias != "" then alias + StripSrcPrefix(noExt) else "./" + noExt
  }

  /** No backslash is left once the path is rewritten, stripped of its
      extension and of a leading "src/". */
  lemma RewrittenPathAvoidsBackslash(rel: string)
    ensures '\\' !in StripExtension(ReplaceBackslashes(rel))
    ensures '\\' !in StripSrcPrefix(StripExtension(ReplaceBackslashes(rel)))
  {
    var b := ReplaceBackslashes(rel);
    assert '\\' !in b by {
      forall i | 0 <= i < |b|
        ensures b[i] != '\\'
      {
      }
    }
    var noExt := StripExtension(b);
    assert noExt == b[..|noExt|];
    assert '\\' !in noExt by {
      forall i | 0 <= i < |noExt|
        ensures noExt[i] != '\\'
      {
        assert noExt[i] == b[i];
        assert b[i] in b;
      }
    }
    var stripped := StripSrcPrefix(noExt);
    assert '\\' !in stripped by {
      forall i | 0 <= i < |stripped|
        ensures stripped[i] != '\\'
      {
        if IsPrefix("src/", noExt) {
          assert stripped[i] == noExt[i + 4];
          assert noExt[i + 4] in noExt;
        } else {
          assert stripped[i] in noExt;
        }
      }
    }
  }

  /** A source file's path has its backslashes turned into "/" and loses
      exactly its one extension and nothing else. */
  lemma FormatSourceFile(base: string, ext: string, alias: string)
    requires ext in SourceExtensions
    ensures alias == "" ==> FormatImportPath(base + ext, alias) == "./" + ReplaceBackslashes(base)
    ensures alias != "" ==> FormatImportPath(base + ext, alias) == alias + StripSrcPrefix(ReplaceBackslashes(base))
  {
    var b := ReplaceBackslashes(base);
    assert ReplaceBackslashes(base + ext) == b + ext by {
      ReplaceBackslashesAppend(base, ext);
      ExtensionUnchanged(ext);
    }
    assert StripExtension(b + ext) == b by {
      MatchedExtensionOfSourceFile(b, ext);
      assert (b + ext)[..|b|] == b;
    }
  }

  /** A source extension has no backslash to replace. */
  lemma ExtensionUnchanged(ext: string)
    requires ext in SourceExtensions
    ensures ReplaceBackslashes(ext) == ext
  {
    assert ext == ".tsx" || ext == ".jsx" || ext == ".ts" || ext == ".js";
    assert ext[0] == '.' && ext[|ext| - 1] != '\\';
    assert forall i :: 0 <= i < |ext| ==> ext[i] != '\\';
    ReplaceBackslashesIdentity(ext);
  }

  /** The regular expression matches exactly the extension a source file has. */
  lemma MatchedExtensionOfSourceFile(base: string, ext: string)
    requires ext in SourceExtensions
    ensures MatchedExtension(base + ext) == ext
  {
    assert ext == ".tsx" || ext == ".jsx" || ext == ".ts" || ext == ".js";
    if ext == ".tsx" {
      MatchTsx(base);
    } else if ext == ".jsx" {
      MatchJsx(base);
    } else if ext == ".ts" {
      MatchTs(base);
    } else {
      MatchJs(base);
    }
  }

  lemma MatchTsx(base: string)
    ensures MatchedExtension(base + ".tsx") == ".tsx"
  {
    var s := base + ".tsx";
    assert s[|s| - 4..] == ".tsx";
  }

  lemma MatchTs(base: string)
    ensures MatchedExtension(base + ".ts") == ".ts"
  {
    var s := base + ".ts";
    assert s[|s| - 3..] == ".ts";
    assert s[|s| - 1] == 's';
    assert !IsSuffix(".tsx", s);
  }

  lemma MatchJs(base: string)
    ensures MatchedExtension(base + ".js") == ".js"
  {
    var s := base + ".js";
    assert s[|s| - 3..] == ".js";
    assert s[|s| - 1] == 's' && s[|s| - 2] == 'j';
    assert !IsSuffix(".tsx", s);
    assert !IsSuffix(".ts", s);
  }

  lemma MatchJsx(base: string)
    ensures MatchedExtension(base + ".jsx") == ".jsx"
  {
    var s := base + ".jsx";
    assert s[|s| - 4..] == ".jsx";
    assert s[|s| - 1] == 'x' && s[|s| - 3] == 'j';
    assert !IsSuffix(".tsx", s);
    assert !IsSuffix(".ts", s);
    assert !IsSuffix(".js", s);
  }

  /** A path without a source extension (a layout file named with another
      extension) keeps all of its text, its backslashes turned into "/". */
  lemma FormatOtherFile(rel: string, alias: string)
    requires !HasSourceExtension(rel)
    ensures alias == "" ==> FormatImportPath(rel, alias) == "./" + ReplaceBackslashes(rel)
    ensures alias != "" ==> FormatImportPath(rel, alias) == alias + StripSrcPrefix(ReplaceBackslashes(rel))
  {
    var r := ReplaceBackslashes(rel);
    if HasSourceExtension(r) {
      if IsSuffix(".tsx", r) {
        SlashFreeSuffix(".tsx", rel);
      } else if IsSuffix(".jsx", r) {
        SlashFreeSuffix(".jsx", rel);
      } else if IsSuffix(".ts", r) {
        SlashFreeSuffix(".ts", rel);
      } else {
        SlashFreeSuffix(".js", rel);
      }
      assert false;
    }
    assert StripExtension(r) == r;
  }

  /** A backslash in a file name splits it like a directory separator:
      `a\b<ext>` is imported as "./a/b", so `routes/a\b.tsx` becomes
      `./routes/a/b`. */
  lemma BackslashSeparates(a: string, b: string, ext: string)
    requires ext in SourceExtensions
    requires '\\' !in a && '\\' !in b
    ensures FormatImportPath(a + "\\" + b + ext, "") == "./" + a + "/" + b
  {
    var name := a + "\\" + b;
    assert ReplaceBackslashes(name) == a + "/" + b by {
      ReplaceBackslashesAppend(a + "\\", b);
      ReplaceBackslashesAppend(a, "\\");
      ReplaceBackslashesIdentity(a);
      ReplaceBackslashesIdentity(b);
      assert ReplaceBackslashes("\\") == "/";
    }
    FormatSourceFile(name, ext, "");
    assert "./" + (a + "/" + b) == "./" + a + "/" + b;
  }
}
