/** The plain-text image listing of the web front end (webserver/routes.go):
    the hierarchy as indented lines, then the orphaned images. */
module Routes {
  import opened Text
  import opened DockerBuild

  /** The seven bytes of the arrow literal of line 88 (UTF-8 for "↳" read
      as Windows-1252 and encoded again), one character per byte. */
  const Arrow: string := "\U{C3}\U{A2}\U{E2}\U{80}\U{A0}\U{C2}\U{B3}"

  /** The line of one child under `prefix`. */
  function ChildLine(prefix: string, name: string): string {
    prefix + "  " + Arrow + name + "\n"
  }

  /** Lines 85-92 as a value: the lines of the images below `b`. */
  function ImageChildrenText(b: BuildableImage, prefix: string): string
    decreases b, 1
  {
    ChildrenTextFrom(b, prefix, 0)
  }

  /** The lines of `b`'s children from index `i` on, each followed by its own subtree. */
  function ChildrenTextFrom(b: BuildableImage, prefix: string, i: nat): string
    requires i <= |b.children|
    decreases b, 0, |b.children| - i
  {
    if i == |b.children| then ""
    else
      var c := b.children[i];
      ChildLine(prefix, c.name) + ImageChildrenText(c, "   " + prefix) + ChildrenTextFrom(b, prefix, i + 1)
  }

  /** `getImageChildrenString`: each child's line, then its subtree three spaces further in. */
  method GetImageChildrenString(dbi: BuildableImage, prefix: string) returns (imageChildrenString: string)
    ensures imageChildrenString == ImageChildrenText(dbi, prefix)
    decreases dbi
  {
    imageChildrenString := "";
    var i := 0;
    while i < |dbi.children|
      invariant 0 <= i <= |dbi.children|
      invariant imageChildrenString + ChildrenTextFrom(dbi, prefix, i) == ImageChildrenText(dbi, prefix)
    {
      var c := dbi.children[i];
      imageChildrenString := imageChildrenString + ChildLine(prefix, c.name);
      var sub := GetImageChildrenString(c, "   " + prefix);
      imageChildrenString := imageChildrenString + sub;
      i := i + 1;
    }
  }

  // An independent description: the images below `b` in pre-order, with their depth

  function Preorder(b: BuildableImage, depth: nat): seq<(string, nat)>
    decreases b, 1
  {
    PreorderFrom(b, depth, 0)
  }

  function PreorderFrom(b: BuildableImage, depth: nat, i: nat): seq<(string, nat)>
    requires i <= |b.children|
    decreases b, 0, |b.children| - i
  {
    if i == |b.children| then []
    else [(b.children[i].name, depth)] + Preorder(b.children[i], depth + 1) + PreorderFrom(b, depth, i + 1)
  }

  /** Three spaces per level. */
  function Indent(depth: nat): string {
    if depth == 0 then "" else "   " + Indent(depth - 1)
  }

  /** One child line per entry, indented by its depth. */
  function Render(entries: seq<(string, nat)>, prefix: string): string {
    if entries == [] then ""
    else ChildLine(Indent(entries[0].1) + prefix, entries[0].0) + Render(entries[1..], prefix)
  }

  lemma {:induction false} RenderConcat(a: seq<(string, nat)>, b: seq<(string, nat)>, prefix: string)
    ensures Render(a + b, prefix) == Render(a, prefix) + Render(b, prefix)
  {
    if a == [] {
      assert a + b == b;
    } else {
      assert (a + b)[1..] == a[1..] + b;
      RenderConcat(a[1..], b, prefix);
    }
  }

  /** The text is one arrow line per image below `b`, in pre-order, each
      indented three spaces per level below the first. */
  lemma {:induction false} ImageTextPreorder(b: BuildableImage, depth: nat, prefix: string)
    ensures ImageChildrenText(b, Indent(depth) + prefix) == Render(Preorder(b, depth), prefix)
    decreases b, 1
  {
    FromPreorder(b, depth, prefix, 0);
  }

  lemma {:induction false} FromPreorder(b: BuildableImage, depth: nat, prefix: string, i: nat)
    requires i <= |b.children|
    ensures ChildrenTextFrom(b, Indent(depth) + prefix, i) == Render(PreorderFrom(b, depth, i), prefix)
    decreases b, 0, |b.children| - i
  {
    if i < |b.children| {
      var c := b.children[i];
      var head: seq<(string, nat)> := [(c.name, depth)];
      ImageTextPreorder(c, depth + 1, prefix);
      assert Indent(depth + 1) + prefix == "   " + (Indent(depth) + prefix);
      FromPreorder(b, depth, prefix, i + 1);
      RenderConcat(head, Preorder(c, depth + 1), prefix);
      RenderConcat(head + Preorder(c, depth + 1), PreorderFrom(b, depth, i + 1), prefix);
      assert Render(head, prefix) == ChildLine(Indent(depth) + prefix, c.name);
    }
  }

  /** The number of images below `b`. */
  function Descendants(b: BuildableImage): nat
    decreases b, 1
  {
    DescendantsFrom(b, 0)
  }

  function DescendantsFrom(b: BuildableImage, i: nat): nat
    requires i <= |b.children|
    decreases b, 0, |b.children| - i
  {
    if i == |b.children| then 0 else 1 + Descendants(b.children[i]) + DescendantsFrom(b, i + 1)
  }

  lemma {:induction false} PreorderSize(b: BuildableImage, depth: nat)
    ensures |Preorder(b, depth)| == Descendants(b)
    decreases b, 1
  {
    PreorderFromSize(b, depth, 0);
  }

  lemma {:induction false} PreorderFromSize(b: BuildableImage, depth: nat, i: nat)
    requires i <= |b.children|
    ensures |PreorderFrom(b, depth, i)| == DescendantsFrom(b, i)
    decreases b, 0, |b.children| - i
  {
    if i < |b.children| {
      PreorderSize(b.children[i], depth + 1);
      PreorderFromSize(b, depth, i + 1);
    }
  }

  predicate NoNewline(s: string) {
    '\n' !in s
  }

  lemma {:induction false} IndentNoNewline(depth: nat)
    ensures NoNewline(Indent(depth))
  {
    if depth > 0 {
      IndentNoNewline(depth - 1);
      assert NoNewline("   ");
    }
  }

  /** A child line holds exactly one newline, at its end. */
  lemma ChildLineCount(prefix: string, name: string)
    requires NoNewline(prefix) && NoNewline(name)
    ensures Count(ChildLine(prefix, name), '\n') == 1
  {
    assert NoNewline("  ") && NoNewline(Arrow);
    OneLine(prefix + "  " + Arrow + name, '\n');
  }

  lemma {:induction false} RenderCount(entries: seq<(string, nat)>, prefix: string)
    requires NoNewline(prefix) && forall e :: e in entries ==> NoNewline(e.0)
    ensures Count(Render(entries, prefix), '\n') == |entries|
  {
    if entries != [] {
      IndentNoNewline(entries[0].1);
      ChildLineCount(Indent(entries[0].1) + prefix, entries[0].0);
      assert forall e :: e in entries[1..] ==> e in entries;
      RenderCount(entries[1..], prefix);
      CountConcat(ChildLine(Indent(entries[0].1) + prefix, entries[0].0), Render(entries[1..], prefix), '\n');
    }
  }

  /** The names of all images below `b`. */
  predicate NamesWithoutNewline(b: BuildableImage) {
    forall e :: e in Preorder(b, 0) ==> NoNewline(e.0)
  }

  /** A leaf has no lines; otherwise there is one line per image below `b`. */
  lemma ImageChildrenLines(b: BuildableImage, prefix: string)
    requires NoNewline(prefix) && NamesWithoutNewline(b)
    ensures b.children == [] ==> ImageChildrenText(b, prefix) == ""
    ensures Count(ImageChildrenText(b, prefix), '\n') == Descendants(b)
  {
    ImageTextPreorder(b, 0, prefix);
    assert Indent(0) + prefix == prefix;
    RenderCount(Preorder(b, 0), prefix);
    PreorderSize(b, 0);
  }

  // The plain-text listing

  const BuildableHeading := "Buildable Images:" + "\n"
  const OrphanedHeading := "Orphaned Images" + "\n"

  /** A root's line, followed by the lines below it. */
  function RootEntry(bi: BuildableImage, children: string): string {
    "  " + bi.name + "\n" + children
  }

  function OrphanLine(oi: OrphanedImage): string {
    oi.name + " (requested from " + oi.parentName + ")" + "\n"
  }

  /** The root lines, each followed by its subtree under a two-space prefix. */
  function RootsText(roots: seq<BuildableImage>): string {
    if roots == [] then ""
    else
      var bi := roots[|roots| - 1];
      RootsText(roots[..|roots| - 1]) + RootEntry(bi, ImageChildrenText(bi, "  "))
  }

  function OrphansText(orphans: seq<OrphanedImage>): string {
    if orphans == [] then ""
    else OrphansText(orphans[..|orphans| - 1]) + OrphanLine(orphans[|orphans| - 1])
  }

  /** Lines 50-58. */
  function ListingText(roots: seq<BuildableImage>, orphans: seq<OrphanedImage>): string {
    BuildableHeading + RootsText(roots) + "\n" + OrphanedHeading + OrphansText(orphans)
  }

  /** The default branch of `renderBaseImagesList`. */
  method RenderBaseImagesList(buildableImages: seq<BuildableImage>, orphanedImages: seq<OrphanedImage>) returns (output: string)
    ensures output == ListingText(buildableImages, orphanedImages)
  {
    output := BuildableHeading;
    var i := 0;
    while i < |buildableImages|
      invariant 0 <= i <= |buildableImages|
      invariant output == BuildableHeading + RootsText(buildableImages[..i])
    {
      var bi := buildableImages[i];
      var children := GetImageChildrenString(bi, "  ");
      assert buildableImages[..i + 1][..i] == buildableImages[..i];
      output := output + RootEntry(bi, children);
      i := i + 1;
    }
    assert buildableImages[..i] == buildableImages;
    output := output + "\n";
    output := output + OrphanedHeading;
    ghost var head := output;
    var j := 0;
    while j < |orphanedImages|
      invariant 0 <= j <= |orphanedImages|
      invariant output == head + OrphansText(orphanedImages[..j])
    {
      var oi := orphanedImages[j];
      assert orphanedImages[..j + 1][..j] == orphanedImages[..j];
      output := output + OrphanLine(oi);
      j := j + 1;
    }
    assert orphanedImages[..j] == orphanedImages;
  }

  /** The sum over the roots of one line each plus the lines below it. */
  function RootLines(roots: seq<BuildableImage>): nat {
    if roots == [] then 0 else RootLines(roots[..|roots| - 1]) + 1 + Descendants(roots[|roots| - 1])
  }

  /** With no newline inside any name, the listing has one line per root,
      one per image below a root, one per orphan, and three more: the two
      headings and the blank line between the sections. */
  lemma ListingLines(roots: seq<BuildableImage>, orphans: seq<OrphanedImage>)
    requires forall b :: b in roots ==> NoNewline(b.name) && NamesWithoutNewline(b)
    requires forall o :: o in orphans ==> NoNewline(o.name) && NoNewline(o.parentName)
    ensures Count(ListingText(roots, orphans), '\n') == 3 + RootLines(roots) + |orphans|
  {
    RootsCount(roots);
    OrphansCount(orphans);
    HeadingLines();
    CountFive(BuildableHeading, RootsText(roots), "\n", OrphanedHeading, OrphansText(orphans));
  }

  lemma CountFive(a: string, b: string, c: string, d: string, e: string)
    ensures Count(a + b + c + d + e, '\n') == Count(a, '\n') + Count(b, '\n') + Count(c, '\n') + Count(d, '\n') + Count(e, '\n')
  {
    CountConcat(a, b, '\n');
    CountConcat(a + b, c, '\n');
    CountConcat(a + b + c, d, '\n');
    CountConcat(a + b + c + d, e, '\n');
  }

  lemma HeadingLines()
    ensures Count(BuildableHeading, '\n') == 1 && Count(OrphanedHeading, '\n') == 1 && Count("\n", '\n') == 1
  {
    OneLine("Buildable Images:", '\n');
    OneLine("Orphaned Images", '\n');
    OneLine("", '\n');
    assert "" + "\n" == "\n";
  }

  lemma RootEntryCount(bi: BuildableImage, children: string)
    requires NoNewline(bi.name)
    ensures Count(RootEntry(bi, children), '\n') == 1 + Count(children, '\n')
  {
    assert NoNewline("  ");
    OneLine("  " + bi.name, '\n');
    CountConcat("  " + bi.name + "\n", children, '\n');
  }

  lemma OrphanLineCount(oi: OrphanedImage)
    requires NoNewline(oi.name) && NoNewline(oi.parentName)
    ensures Count(OrphanLine(oi), '\n') == 1
  {
    assert NoNewline(" (requested from ") && NoNewline(")");
    OneLine(oi.name + " (requested from " + oi.parentName + ")", '\n');
  }

  lemma {:induction false} RootsCount(roots: seq<BuildableImage>)
    requires forall b :: b in roots ==> NoNewline(b.name) && NamesWithoutNewline(b)
    ensures Count(RootsText(roots), '\n') == RootLines(roots)
  {
    if roots != [] {
      var init := roots[..|roots| - 1];
      var bi := roots[|roots| - 1];
      assert forall b :: b in init ==> b in roots;
      RootsCount(init);
      ImageChildrenLines(bi, "  ");
      RootEntryCount(bi, ImageChildrenText(bi, "  "));
      CountConcat(RootsText(init), RootEntry(bi, ImageChildrenText(bi, "  ")), '\n');
    }
  }

  lemma {:induction false} OrphansCount(orphans: seq<OrphanedImage>)
    requires forall o :: o in orphans ==> NoNewline(o.name) && NoNewline(o.parentName)
    ensures Count(OrphansText(orphans), '\n') == |orphans|
  {
    if orphans != [] {
      var init := orphans[..|orphans| - 1];
      assert forall o :: o in init ==> o in orphans;
      OrphansCount(init);
      OrphanLineCount(orphans[|orphans| - 1]);
      CountConcat(OrphansText(init), OrphanLine(orphans[|orphans| - 1]), '\n');
    }
  }

  /** The layout of a small listing. */
  lemma SmallListing()
    ensures ListingText([BuildableImage("b", [BuildableImage("c", [])])], [OrphanedImage("o", "p")]) ==
            BuildableHeading + "  b\n" + "    " + Arrow + "c\n" + "\n" + OrphanedHeading + "o (requested from p)\n"
  {
    var c := BuildableImage("c", []);
    var b := BuildableImage("b", [c]);
    assert ChildrenTextFrom(b, "  ", 1) == "";
    assert ImageChildrenText(c, "   " + "  ") == "";
    assert ImageChildrenText(b, "  ") == ChildLine("  ", "c") + "" + "";
    assert ChildLine("  ", "c") == "    " + Arrow + "c\n";
    var roots := [b];
    assert roots[..0] == [];
    assert RootEntry(b, ImageChildrenText(b, "  ")) == "  b\n" + "    " + Arrow + "c\n";
    assert RootsText(roots) == "" + RootEntry(b, ImageChildrenText(b, "  "));
    var orphans := [OrphanedImage("o", "p")];
    assert orphans[..0] == [];
    assert OrphanLine(orphans[0]) == "o (requested from p)\n";
    assert OrphansText(orphans) == "" + OrphanLine(orphans[0]);
  }
}
