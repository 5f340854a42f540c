/** `minify(code, kind)` of is-minify/minify.js: the entry point that picks the scanner by
    the grammar tag and throws for any other tag (modelled as `Failure`). `asWritten`
    selects the JavaScript post-pass as written; without it, as intended. */
module Minify {
  import opened Builtins
  import PostPass
  import JsMinifier
  import CssMinifier

  const KindError: string := "kind must be \"js\" or \"css\""

  /** `js` selects the JavaScript minifier, `css` the CSS one; every other tag is an error,
      never a silent default. */
  method Minify(code: string, kind: string, asWritten: bool) returns (r: Result<string>)
    ensures kind == "js" ==> r == Success(PostPass.JsPostPass(JsMinifier.Run(code, JsMinifier.Initial()), asWritten))
    ensures kind == "css" ==> r == Success(PostPass.CssPostPass(CssMinifier.CssRun(code, CssMinifier.CssInitial())))
    ensures r.Failure? <==> kind != "js" && kind != "css"
    ensures r.Failure? ==> r.error == KindError
    ensures r.Success? ==> |r.value| <= |code|
  {
    if kind == "js" {
      var s := JsMinifier.MinifyJs(code, asWritten);
      return Success(s);
    }
    if kind == "css" {
      var s := CssMinifier.MinifyCss(code);
      return Success(s);
    }
    return Failure(KindError);
  }
}
