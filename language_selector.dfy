/**
 * The locale part of the path, as `src/components/language-selector.tsx`
 * reads and rewrites it: the second "/"-separated segment is the language
 * code when it is one of the selector's codes.
 */
module LanguageSelector {
  import opened JsStrings

  /** The codes of the selector's `languages` list. */
  const Codes: seq<string> := ["en", "es"]

  /** `languages.some(lang => lang.code === s)`. */
  predicate IsLanguageCode(s: string) {
    s in Codes
  }

  /** `pathname.split('/')`. */
  function Segments(pathname: string): (r: seq<string>)
    ensures |r| >= 1
    ensures forall p :: p in r ==> '/' !in p
  {
    SplitCharPartsFree(pathname, '/');
    Split(pathname, "/")
  }

  /** Whether the path carries a language code as its second segment. */
  predicate HasLanguageSegment(pathname: string) {
    var segments := Segments(pathname);
    |segments| > 1 && IsLanguageCode(segments[1])
  }

  /** `getCurrentLanguage`: the path's code, English by default. */
  function GetCurrentLanguage(pathname: string): (r: string)
    ensures IsLanguageCode(r)
    ensures HasLanguageSegment(pathname) ==> r == Segments(pathname)[1]
    ensures !HasLanguageSegment(pathname) ==> r == "en"
  {
    var segments := Segments(pathname);
    if |segments| > 1 && IsLanguageCode(segments[1]) then segments[1] else "en"
  }

  /** `getNewUrl`: with a code segment, a path with the same segments
      except the code, which is the new one (for a code without '/');
      otherwise the code put in front. */
  function GetNewUrl(pathname: string, newLang: string): (r: string)
    ensures HasLanguageSegment(pathname) && '/' !in newLang ==>
      Segments(r) == Segments(pathname)[1 := newLang]
    ensures !HasLanguageSegment(pathname) ==> r == "/" + newLang + pathname
  {
    var segments := Segments(pathname);
    if |segments| > 1 && IsLanguageCode(segments[1]) then
      var replaced := segments[1 := newLang];
      if '/' !in newLang then
        assert forall p :: p in replaced ==> p == newLang || p in segments;
        SplitJoinChar(replaced, '/');
        Join(replaced, "/")
      else Join(replaced, "/")
    else "/" + newLang + pathname
  }

  /** Without one, the new path is the old one behind an empty segment and
      the code. */
  lemma NewUrlPrefixesCode(pathname: string, newLang: string)
    requires !HasLanguageSegment(pathname) && '/' !in newLang
    requires |pathname| > 0 && pathname[0] == '/'
    ensures Segments(GetNewUrl(pathname, newLang)) == ["", newLang] + Segments(pathname)[1..]
  {
    var rest := pathname[1..];
    assert pathname == "" + ['/'] + rest;
    SplitCharCons("", '/', rest);
    assert "/" + newLang + pathname == "" + ['/'] + (newLang + ['/'] + rest);
    SplitCharCons("", '/', newLang + ['/'] + rest);
    SplitCharCons(newLang, '/', rest);
  }

  /** Switching to a code and reading the code back gives that code, for a
      path that starts with "/". */
  lemma SwitchThenRead(pathname: string, newLang: string)
    requires IsLanguageCode(newLang)
    requires |pathname| > 0 && pathname[0] == '/'
    ensures GetCurrentLanguage(GetNewUrl(pathname, newLang)) == newLang
  {
    assert '/' !in newLang;
    if !HasLanguageSegment(pathname) {
      NewUrlPrefixesCode(pathname, newLang);
    }
  }
}
