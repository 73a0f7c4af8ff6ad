/**
 * Display names for a list of senders (`get_display_names`). The server's
 * display-name lookup is a parameter: it either yields a name or fails, and a
 * failure of any kind falls back to the id that was looked up.
 */
module DisplayNames {
  import opened Events
  import opened Text

  /** The lookup of a user id's display name; `None` stands for the call raising. */
  type Lookup = string -> Option<string>

  /** One piece of a `str.format` template that uses only the field `{s}`. */
  datatype Piece = Lit(text: string) | Field

  /** A template such as `"@slack_{s}:matrix.org"`, as its pieces in order. */
  type Template = seq<Piece>

  /** The one sender whose id is rewritten before anything else. */
  const MatrixOrgId: string := "@Cadair:matrix.org"
  const HomeServerId: string := "@cadair:cadair.com"

  /** `template.format(s=s)`: every field replaced by `s`, literal text kept. */
  function Format(template: Template, s: string): (r: string)
    ensures Field in template ==> Contains(r, s)
  {
    if template == [] then ""
    else
      var tail := Format(template[1..], s);
      match template[0]
      case Lit(text) =>
        assert Field in template ==> Field in template[1..];
        ContainsAfter(text, tail, s); text + tail
      case Field => ContainsPrefix(s + tail, s); s + tail
  }

  lemma ContainsPrefix(s: string, sub: string)
    requires sub <= s
    ensures Contains(s, sub)
  {
  }

  /** A string still holds `sub` after text is put in front of it. */
  lemma {:induction false} ContainsAfter(prefix: string, s: string, sub: string)
    ensures Contains(s, sub) ==> Contains(prefix + s, sub)
    decreases |prefix|
  {
    if prefix == [] {
      assert prefix + s == s;
    } else {
      ContainsAfter(prefix[1..], s, sub);
      assert (prefix + s)[1..] == prefix[1..] + s;
    }
  }

  /** The rewrite of the one known alternative id; every other id stays as it is. */
  function Canonical(s: string): (r: string)
    ensures ':' in r <==> ':' in s
    ensures r != s ==> s == MatrixOrgId && r == HomeServerId
  {
    assert MatrixOrgId[7] == ':' && HomeServerId[7] == ':';
    if s == MatrixOrgId then HomeServerId else s
  }

  /** Whether the template is applied to a sender: one is given and the (rewritten) id has no server part. */
  predicate Templated(template: Option<Template>, s: string)
  {
    template.Some? && ':' !in Canonical(s)
  }

  /** The id that is looked up for sender `s`. */
  function LookupId(template: Option<Template>, s: string): string
  {
    if Templated(template, s) then Format(template.value, Canonical(s)) else Canonical(s)
  }

  /** The looked-up name, or the id itself when the lookup fails. */
  function NameOrId(lookup: Lookup, id: string): string
  {
    match lookup(id)
    case Some(name) => name
    case None => id
  }

  /** The display name listed for sender `s`; `*` marks a sender the template was not applied to. */
  function DisplayName(lookup: Lookup, template: Option<Template>, s: string): string
  {
    var dn := NameOrId(lookup, LookupId(template, s));
    if Templated(template, s) then dn else dn + "*"
  }

  /**
   * The template is applied exactly when one is given and the sender as
   * passed in has no `:`: the rewrite of `@Cadair:matrix.org` never changes
   * that test.
   */
  lemma TemplatedExactly(template: Option<Template>, s: string)
    ensures Templated(template, s) <==> template.Some? && ':' !in s
  {
  }

  /** A sender that already names its server is looked up as is (after the rewrite) and marked with `*`. */
  lemma FullIdMarked(lookup: Lookup, template: Option<Template>, s: string)
    requires ':' in s
    ensures DisplayName(lookup, template, s) == NameOrId(lookup, Canonical(s)) + "*"
  {
  }

  /** With no template every sender is looked up as is (after the rewrite) and marked with `*`. */
  lemma NoTemplateMarked(lookup: Lookup, s: string)
    ensures DisplayName(lookup, None, s) == NameOrId(lookup, Canonical(s)) + "*"
  {
  }

  /** A bare localpart goes through the template and is not marked, whatever the lookup gives. */
  lemma BareNameTemplated(lookup: Lookup, template: Template, s: string)
    requires ':' !in s
    ensures DisplayName(lookup, Some(template), s) == NameOrId(lookup, Format(template, s))
  {
  }

  /**
   * The lookup fallback: a sender's name is what the lookup of its id gives,
   * or that id itself when the lookup fails; either way followed by `*`
   * exactly when the template was not applied.
   */
  lemma LookupFallback(lookup: Lookup, template: Option<Template>, s: string)
    ensures var id := LookupId(template, s);
      var mark := if Templated(template, s) then "" else "*";
      && (lookup(id).Some? ==> DisplayName(lookup, template, s) == lookup(id).value + mark)
      && (lookup(id).None? ==> DisplayName(lookup, template, s) == id + mark)
  {
  }

  /** `@Cadair:matrix.org` is looked up as `@cadair:cadair.com`, and shown as that id when the lookup fails. */
  lemma MatrixOrgRewritten(lookup: Lookup, template: Option<Template>)
    ensures LookupId(template, MatrixOrgId) == HomeServerId
    ensures lookup(HomeServerId).None? ==> DisplayName(lookup, template, MatrixOrgId) == HomeServerId + "*"
  {
  }

  /** `get_display_names`: one display name per sender, in the senders' order. */
  method GetDisplayNames(lookup: Lookup, senders: seq<string>, template: Option<Template>)
    returns (names: seq<string>)
    ensures |names| == |senders|
    ensures forall i :: 0 <= i < |senders| ==> names[i] == DisplayName(lookup, template, senders[i])
  {
    names := [];
    for k := 0 to |senders|
      invariant |names| == k
      invariant forall i :: 0 <= i < k ==> names[i] == DisplayName(lookup, template, senders[i])
    {
      var s := senders[k];
      var marked := true;
      if s == MatrixOrgId {
        s := HomeServerId;
      }
      if template.Some? && ':' !in s {
        s := Format(template.value, s);
        marked := false;
      }
      var dn;
      match lookup(s) {
        case Some(name) => dn := name;
        case None => dn := s;
      }
      if marked {
        dn := dn + "*";
      }
      names := names + [dn];
    }
  }
}
