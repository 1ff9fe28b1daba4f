/** The MDX element overrides (`customComponents.tsx`): the `clsx` class
    combiner, the base classes of each element, the internal / external link
    choice, the block / inline choice for `code`, and the `img` alt default.
    Rendering itself (React, `next/link`) is not modelled: each override is
    reduced to the attributes it computes. */
module MdxComponents {
  import opened Wrappers
  import opened Strings

  // ---------------------------------------------------------------------
  // clsx

  /** An argument of `clsx`: a string, `null`, `undefined` or `false`. */
  datatype ClassArg = Str(s: string) | Null | Undefined | False

  predicate Truthy(arg: ClassArg)
  {
    arg.Str? && arg.s != ""
  }

  /** `args.filter(Boolean)`, as the strings kept. */
  function Kept(args: seq<ClassArg>): (kept: seq<string>)
    ensures |kept| <= |args|
    ensures forall k :: 0 <= k < |kept| ==> kept[k] != ""
  {
    if args == [] then []
    else (if Truthy(args[0]) then [args[0].s] else []) + Kept(args[1..])
  }

  /** `clsx(...args)`: the kept strings joined by single spaces. */
  function Clsx(args: seq<ClassArg>): string
  {
    Join(Kept(args), " ")
  }

  lemma {:induction false} JoinOfNonEmptyIsEmpty(parts: seq<string>, sep: string)
    requires forall k :: 0 <= k < |parts| ==> parts[k] != ""
    ensures Join(parts, sep) == "" <==> parts == []
  {
    if |parts| >= 2 {
      assert |Join(parts, sep)| >= |parts[0]|;
    }
  }

  /** `clsx` is empty exactly when every argument is falsy. */
  lemma {:induction false} ClsxEmptyIffAllFalsy(args: seq<ClassArg>)
    ensures Clsx(args) == "" <==> forall k :: 0 <= k < |args| ==> !Truthy(args[k])
  {
    KeptEmptyIffAllFalsy(args);
    JoinOfNonEmptyIsEmpty(Kept(args), " ");
  }

  lemma {:induction false} KeptEmptyIffAllFalsy(args: seq<ClassArg>)
    ensures Kept(args) == [] <==> forall k :: 0 <= k < |args| ==> !Truthy(args[k])
  {
    if args != [] {
      KeptEmptyIffAllFalsy(args[1..]);
      if !Truthy(args[0]) {
        assert Kept(args) == Kept(args[1..]);
        forall k | 0 < k < |args| ensures args[k] == args[1..][k - 1] { }
      }
    }
  }

  /** The filter works argument by argument: filtering two runs of arguments
      is filtering each, in order. With `Kept([a])` this determines `Kept`
      on every argument list. */
  lemma {:induction false} KeptAppend(a: seq<ClassArg>, b: seq<ClassArg>)
    ensures Kept(a + b) == Kept(a) + Kept(b)
  {
    if a == [] {
      assert a + b == b;
    } else {
      assert (a + b)[0] == a[0] && (a + b)[1..] == a[1..] + b;
      KeptAppend(a[1..], b);
    }
  }

  /** A string is kept exactly when some argument is that truthy string. */
  lemma {:induction false} KeptMembers(args: seq<ClassArg>, s: string)
    ensures s in Kept(args) <==> exists k :: 0 <= k < |args| && Truthy(args[k]) && args[k].s == s
  {
    if args != [] {
      KeptMembers(args[1..], s);
      if s in Kept(args[1..]) {
        var k :| 0 <= k < |args[1..]| && Truthy(args[1..][k]) && args[1..][k].s == s;
        assert args[k + 1] == args[1..][k];
      }
      if exists k :: 0 <= k < |args| && Truthy(args[k]) && args[k].s == s {
        var k :| 0 <= k < |args| && Truthy(args[k]) && args[k].s == s;
        if k > 0 {
          assert args[1..][k - 1] == args[k];
        }
      }
    }
  }

  /** `clsx(base, className)` with a non-empty base: the base first, then the
      caller's class after one space when it is truthy. */
  lemma BaseThenCaller(base: string, caller: ClassArg)
    requires base != ""
    ensures Clsx([Str(base), caller]) == if Truthy(caller) then base + " " + caller.s else base
  {
    assert [Str(base), caller][1..] == [caller];
    assert [caller][1..] == [];
    if Truthy(caller) {
      assert Kept([caller]) == [caller.s];
      assert Kept([Str(base), caller]) == [base, caller.s];
      assert [base, caller.s][1..] == [caller.s];
      assert Join([base, caller.s], " ") == base + " " + Join([caller.s], " ");
    } else {
      assert Kept([caller]) == [];
      assert Kept([Str(base), caller]) == [base];
    }
  }

  // ---------------------------------------------------------------------
  // Elements

  /** The elements the map overrides. */
  const Tags: set<string> := {"h1", "h2", "h3", "h4", "h5", "h6", "a", "p", "ul", "ol", "li",
                              "blockquote", "img", "hr", "table", "tr", "th", "td", "pre", "code",
                              "strong", "em"}

  /** The base classes each element puts before the caller's. */
  const BaseClasses: map<string, string> := map[
    "h1" := "mt-4 mb-2 scroll-m-20 text-4xl font-bold tracking-tight text-green-400",
    "h2" := "mt-10 mb-2 scroll-m-20 border-b border-b-zinc-700 pb-2 text-3xl font-semibold tracking-tight first:mt-0 text-green-400",
    "h3" := "mt-8 mb-2 scroll-m-20 text-2xl font-semibold tracking-tight text-green-400",
    "h4" := "mt-6 mb-2 scroll-m-20 text-xl font-semibold tracking-tight text-green-400",
    "h5" := "mt-5 mb-2 scroll-m-20 text-lg font-semibold tracking-tight text-green-400",
    "h6" := "mt-5 mb-2 scroll-m-20 text-base font-semibold tracking-tight text-green-400",
    "a" := "font-medium text-blue-400 underline underline-offset-4 hover:text-blue-300",
    "p" := "leading-7 text-green-300 [&:not(:first-child)]:mt-6",
    "ul" := "my-6 ml-6 list-disc text-green-300",
    "ol" := "my-6 ml-6 list-decimal text-green-300",
    "li" := "mt-2 text-green-300",
    "blockquote" := "mt-6 border-l-4 border-green-500 pl-6 italic text-zinc-400",
    "img" := "rounded-md border border-zinc-700 my-4 max-w-full h-auto",
    "table" := "w-full border-collapse",
    "tr" := "m-0 border-t border-zinc-700 p-0 even:bg-zinc-900/50",
    "th" := "border border-zinc-600 px-4 py-2 text-left font-bold text-green-400 [&[align=center]]:text-center [&[align=right]]:text-right",
    "td" := "border border-zinc-600 px-4 py-2 text-left text-green-300 [&[align=center]]:text-center [&[align=right]]:text-right",
    "pre" := "mt-6 mb-4 overflow-x-auto rounded-lg bg-zinc-900 p-4 text-sm",
    "strong" := "font-semibold text-green-400",
    "em" := "italic text-green-300"
  ]

  const BlockCodeClasses: string := "text-green-300 font-mono"
  const InlineCodeClasses: string := "relative rounded border border-zinc-700 bg-zinc-800 py-[0.2rem] px-[0.3rem] font-mono text-sm text-amber-400"
  const RuleClasses: string := "my-6 border-zinc-700"

  /** `clsx(base, className)` for an element with base classes. */
  function ElementClass(tag: string, caller: ClassArg): string
    requires tag in BaseClasses
  {
    Clsx([Str(BaseClasses[tag]), caller])
  }

  /** The class an element is rendered with: its base classes, then the
      caller's class when it has one. */
  lemma ElementClassStartsWithBase(tag: string, caller: ClassArg)
    requires tag in BaseClasses
    ensures ElementClass(tag, caller)
         == if Truthy(caller) then BaseClasses[tag] + " " + caller.s else BaseClasses[tag]
  {
    assert BaseClasses[tag] != "";
    BaseThenCaller(BaseClasses[tag], caller);
  }

  /** `hr` sets a fixed class before spreading the caller's props, so a
      `className` among them wins. */
  function RuleClass(callerClass: Option<string>): string
  {
    callerClass.GetOr(RuleClasses)
  }

  /** Unlike the other elements, a rule does not combine its classes with the
      caller's: the fixed classes apply only when the caller gives none, and
      a caller's class replaces them instead of following them. */
  lemma RuleClassReplacesBase(callerClass: Option<string>)
    ensures callerClass.None? ==> RuleClass(callerClass) == RuleClasses
    ensures callerClass.Some? ==> RuleClass(callerClass) == callerClass.value
    ensures callerClass.Some? && callerClass.value != "" ==>
      RuleClass(callerClass) != Clsx([Str(RuleClasses), Str(callerClass.value)])
  {
    if callerClass.Some? && callerClass.value != "" {
      BaseThenCaller(RuleClasses, Str(callerClass.value));
      assert |Clsx([Str(RuleClasses), Str(callerClass.value)])| > |callerClass.value|;
    }
  }

  // ---------------------------------------------------------------------
  // Links

  /** `href && (href.startsWith('/') || href.startsWith('#'))`. */
  predicate IsInternal(href: Option<string>)
  {
    href.Some? && href.value != "" && (StartsWith(href.value, "/") || StartsWith(href.value, "#"))
  }

  datatype LinkKind = NextLink | Anchor

  /** The attributes the `a` override renders with; `target` and `rel` are
      those it adds, before any caller props. */
  datatype LinkAttrs = LinkAttrs(kind: LinkKind, href: string, className: string,
                                 target: Option<string>, rel: Option<string>)

  function LinkRender(href: Option<string>, caller: ClassArg): (r: LinkAttrs)
    ensures r.kind == NextLink <==> IsInternal(href)
    ensures r.kind == Anchor <==> r.target == Some("_blank") && r.rel == Some("noopener noreferrer")
    ensures r.href == (if href.Some? && href.value != "" then href.value else "#")
  {
    var internal := IsInternal(href);
    LinkAttrs(if internal then NextLink else Anchor,
              if href.Some? && href.value != "" then href.value else "#",
              ElementClass("a", caller),
              if internal then None else Some("_blank"),
              if internal then None else Some("noopener noreferrer"))
  }

  /** Internal links are exactly the same-site paths and fragments; a missing
      or empty `href` opens an external-style anchor to `#`. */
  lemma LinkClassification(href: Option<string>, caller: ClassArg)
    ensures href.None? ==> LinkRender(href, caller).kind == Anchor && LinkRender(href, caller).href == "#"
    ensures href.Some? && |href.value| > 0 && href.value[0] in {'/', '#'} ==> LinkRender(href, caller).kind == NextLink
    ensures href.Some? && |href.value| > 0 && href.value[0] !in {'/', '#'} ==> LinkRender(href, caller).kind == Anchor
  {
    if href.Some? && |href.value| > 0 {
      assert StartsWith(href.value, "/") <==> href.value[0] == '/';
      assert StartsWith(href.value, "#") <==> href.value[0] == '#';
    }
  }

  // ---------------------------------------------------------------------
  // Code and images

  /** What `children` of a `code` element is: a string, or anything else. */
  datatype Children = TextChildren(text: string) | OtherChildren

  /** `typeof children === 'string' && children.includes('\n')`. */
  predicate IsBlockCode(children: Children)
  {
    children.TextChildren? && '\n' in children.text
  }

  function CodeClass(children: Children, caller: ClassArg): (c: string)
  {
    Clsx([Str(if IsBlockCode(children) then BlockCodeClasses else InlineCodeClasses), caller])
  }

  /** Block styling exactly for string children with a line break; a single
      line, or children that are elements, get the inline styling. */
  lemma CodeStyling(children: Children, caller: ClassArg)
    ensures IsBlockCode(children) ==>
      CodeClass(children, caller) == if Truthy(caller) then BlockCodeClasses + " " + caller.s else BlockCodeClasses
    ensures !IsBlockCode(children) ==>
      CodeClass(children, caller) == if Truthy(caller) then InlineCodeClasses + " " + caller.s else InlineCodeClasses
  {
    BaseThenCaller(if IsBlockCode(children) then BlockCodeClasses else InlineCodeClasses, caller);
  }

  /** `alt || ''`. */
  function AltText(alt: Option<string>): (a: string)
    ensures a == "" <==> alt.None? || alt.value == ""
    ensures alt.Some? ==> a == alt.value
  {
    if alt.Some? && alt.value != "" then alt.value else ""
  }

  // ---------------------------------------------------------------------
  // The component map

  /** Which component renders an element. */
  datatype ComponentRef = Custom(tag: string) | RepositoryImage

  /** `customMdxComponents`. */
  function CustomComponents(): (m: map<string, ComponentRef>)
    ensures m.Keys == Tags
    ensures forall t :: t in m ==> m[t] == Custom(t)
  {
    map t | t in Tags :: Custom(t)
  }
}
