/** The per-tenant stylesheet: three colour strings interpolated into a fixed
    custom-property template, served uncached. */
module ThemeRoutes {
  import opened Common
  import opened Text
  import opened TenantModel
  import opened Http

  const CssPrefix := ":root{--color-primary:"
  const CssBgPart := ";--color-bg:"
  const CssTextPart := ";--color-text:"
  const CssSuffix := ";}"
  const NoCache := "no-cache, no-store, must-revalidate"

  /** The stylesheet for a theme:
      `:root{--color-primary:P;--color-bg:B;--color-text:T;}`. */
  function Css(t: Theme): (r: string)
    ensures |r| == |t.primary| + |t.background| + |t.text| + 50
    ensures r[..22 + |t.primary|] == CssPrefix + t.primary
    ensures r[|r| - |t.text| - 2..] == t.text + CssSuffix
  {
    CssPrefix + (t.primary + BgTail(t))
  }

  function BgTail(t: Theme): string {
    CssBgPart + (t.background + TextTail(t))
  }

  function TextTail(t: Theme): string {
    CssTextPart + (t.text + CssSuffix)
  }

  /** The tenant's theme, or the configured defaults when no tenant is
      resolved. A stored tenant always has a theme, so the defaults apply
      exactly when there is no tenant. */
  function CurrentTheme(ctx: Context, env: Env): (t: Theme)
    ensures ctx.tenant.Some? ==> t == ctx.tenant.value.theme
    ensures ctx.tenant.None? ==> t == DefaultTheme(env)
  {
    if ctx.tenant.Some? then ctx.tenant.value.theme else DefaultTheme(env)
  }

  /** `GET /api/themes/current.css`: never an error, always CSS, never cached. */
  function CurrentCss(ctx: Context, env: Env): (r: Reply)
    ensures r.Send? && r.response.status == 200
    ensures r.response.contentType == "text/css" && r.response.cacheControl == Some(NoCache)
    ensures r.response.body == CssBody(Css(CurrentTheme(ctx, env)))
  {
    Send(Response(200, CssBody(Css(CurrentTheme(ctx, env))), "text/css", Some(NoCache), KeepCookie))
  }

  /** The stylesheet opens the `:root` rule and then declares the primary
      colour. */
  lemma CssDeclaresPrimary(t: Theme)
    ensures OccursAt(":root", Css(t), 0)
    ensures OccursAt("--color-primary:" + t.primary, Css(t), 6)
    ensures Includes(Css(t), "--color-primary:" + t.primary)
  {
    var head := ":root{";
    var needle := "--color-primary:" + t.primary;
    assert CssPrefix == head + "--color-primary:";
    assert Css(t) == head + needle + BgTail(t);
    assert |head| == 6;
    assert (head + needle + BgTail(t))[6..6 + |needle|] == needle;
    assert Css(t)[6..6 + |needle|] == needle;
    assert OccursAt(needle, Css(t), 6);
    assert Css(t)[0..5] == ":root";
  }

  /** A tenant whose primary colour is `#ff0000` gets a stylesheet that
      contains `:root` and `--color-primary:#ff0000`. */
  lemma RedPrimaryTenant(ctx: Context, env: Env)
    requires ctx.tenant.Some? && ctx.tenant.value.theme.primary == "#ff0000"
    ensures Occurs("--color-primary:#ff0000", CurrentCss(ctx, env).response.body.css)
    ensures Occurs(":root", CurrentCss(ctx, env).response.body.css)
  {
    var t := ctx.tenant.value.theme;
    CssDeclaresPrimary(t);
    assert "--color-primary:" + t.primary == "--color-primary:#ff0000";
  }

  /** Two strings without `;` followed by text starting with `;` split the
      same way only if they are equal. */
  lemma UpToSemicolon(p1: string, r1: string, p2: string, r2: string)
    requires ';' !in p1 && ';' !in p2
    requires r1 != [] && r1[0] == ';' && r2 != [] && r2[0] == ';'
    requires p1 + r1 == p2 + r2
    ensures p1 == p2 && r1 == r2
  {
    assert p1 == (p1 + r1)[..|p1|];
    assert p2 == (p2 + r2)[..|p2|];
    assert r1 == (p1 + r1)[|p1|..];
    assert r2 == (p2 + r2)[|p2|..];
  }

  lemma DropPrefix(a: string, x: string, y: string)
    requires a + x == a + y
    ensures x == y
  {
    assert x == (a + x)[|a|..];
    assert y == (a + y)[|a|..];
  }

  /** Colours without `;` can be read back from the stylesheet: different
      themes give different stylesheets. */
  lemma CssInjective(t1: Theme, t2: Theme)
    requires ';' !in t1.primary && ';' !in t1.background && ';' !in t1.text
    requires ';' !in t2.primary && ';' !in t2.background && ';' !in t2.text
    requires Css(t1) == Css(t2)
    ensures t1 == t2
  {
    DropPrefix(CssPrefix, t1.primary + BgTail(t1), t2.primary + BgTail(t2));
    UpToSemicolon(t1.primary, BgTail(t1), t2.primary, BgTail(t2));
    DropPrefix(CssBgPart, t1.background + TextTail(t1), t2.background + TextTail(t2));
    UpToSemicolon(t1.background, TextTail(t1), t2.background, TextTail(t2));
    DropPrefix(CssTextPart, t1.text + CssSuffix, t2.text + CssSuffix);
    UpToSemicolon(t1.text, CssSuffix, t2.text, CssSuffix);
  }
}
