/** The site header (`Navigation.tsx`): which of its two links is active for
    the current path, where each link leads and what it says, and the
    header's background as the intersection observer reports. The observer
    and the router are foreign: `isIntersecting` and the path are inputs. */
module Navigation {
  import opened Strings

  const RepositoriesPath: string := "/repositories"
  const ContactPath: string := "/contact"

  /** The repositories list or any page below it. */
  predicate IsProjectsActive(path: string)
  {
    path == RepositoriesPath || StartsWith(path, RepositoriesPath + "/")
  }

  /** Exactly the contact page. */
  predicate IsContactActive(path: string)
  {
    path == ContactPath
  }

  /** The two links are never active together. */
  lemma NeverBothActive(path: string)
    ensures !(IsProjectsActive(path) && IsContactActive(path))
  {
    if IsContactActive(path) {
      assert path[1] == 'c';
      assert !StartsWith(path, RepositoriesPath + "/") by { assert |path| < |RepositoriesPath + "/"|; }
    }
  }

  /** A path that only shares the `/repositories` prefix, such as
      `/repositoriesX`, is not below it; a page below it is. */
  lemma ProjectsPrefixIsASegment(rest: string)
    ensures rest != "" && rest[0] != '/' ==> !IsProjectsActive(RepositoriesPath + rest)
    ensures rest != "" && rest[0] == '/' ==> IsProjectsActive(RepositoriesPath + rest)
  {
    var path := RepositoriesPath + rest;
    if rest != "" {
      assert path[|RepositoriesPath|] == rest[0];
      assert path != RepositoriesPath;
      if rest[0] == '/' {
        assert path[..|RepositoriesPath| + 1] == RepositoriesPath + "/";
      } else {
        assert (RepositoriesPath + "/")[|RepositoriesPath|] == '/';
      }
    }
  }

  datatype NavLink = NavLink(href: string, text: string)

  /** On a repositories page the first link leads home; elsewhere to the
      repositories list. */
  function ProjectsLink(path: string): (l: NavLink)
    ensures l.href == "/" <==> l.text == "Home"
    ensures l.text == "Home" <==> IsProjectsActive(path)
    ensures !IsProjectsActive(path) ==> l == NavLink(RepositoriesPath, "Projects")
  {
    if IsProjectsActive(path) then NavLink("/", "Home") else NavLink(RepositoriesPath, "Projects")
  }

  /** On the contact page the second link leads home; elsewhere to it. */
  function ContactLink(path: string): (l: NavLink)
    ensures l.href == "/" <==> l.text == "Home"
    ensures l.text == "Home" <==> IsContactActive(path)
    ensures !IsContactActive(path) ==> l == NavLink(ContactPath, "Contact")
  {
    if IsContactActive(path) then NavLink("/", "Home") else NavLink(ContactPath, "Contact")
  }

  /** A link never leads to the page it is shown on, and at most one of the
      two links leads home. */
  lemma LinksLeaveThePage(path: string)
    ensures ProjectsLink(path).href != path || path == "/"
    ensures ContactLink(path).href != path || path == "/"
    ensures !(ProjectsLink(path).href == "/" && ContactLink(path).href == "/")
  {
    NeverBothActive(path);
  }

  const HeaderBase: string := "fixed inset-x-0 top-0 z-50 backdrop-blur duration-200 border-b "

  /** The header's classes: transparent while the header is in view, a dark
      background and border once it has scrolled out. */
  function HeaderClass(isIntersecting: bool): (c: string)
    ensures |c| > |HeaderBase| && c[..|HeaderBase|] == HeaderBase
  {
    HeaderBase + (if isIntersecting then "bg-zinc-900/0 border-transparent" else "bg-zinc-900/500 border-zinc-800")
  }
}
