/**
 * The theme side of `src/script.js`: the four tables of CSS custom
 * properties written on `:root`, `changeTheme`'s choice of table, and the
 * click handler that `select` installs on every button of a theme menu.
 *
 * `setProperty` turns its numeric arguments into strings the way
 * JavaScript prints numbers, so `1.0` is written as "1".
 */
module Theme {

  /** One `root.style.setProperty(name, value)` call. */
  datatype Write = Write(name: string, value: string)

  /** The four tables the script can apply. */
  datatype Palette = Dark | Light | Twilight | Arctic

  /** The number of properties every table writes. */
  const VariableCount := 24

  /** `changeToDark`, in the order of its writes. */
  const DarkTable: seq<Write> := [
    Write("--shade", "0.6"),
    Write("--shade-hover", "1"),
    Write("--shade-fade", "0.6"),
    Write("--shade-fade-hover", "1"),
    Write("--primary", "#ed452b"),
    Write("--primary-hover", "#f79286"),
    Write("--menu-fg", "#2b2b30"),
    Write("--menu-bg", "#24233D"),
    Write("--textarea-bg", "#171717"),
    Write("--canvas", "#202023"),
    Write("--submenu-bg", "#111114"),
    Write("--switch-bg", "#ccc"),
    Write("--header-text", "white"),
    Write("--primary-text", "white"),
    Write("--secondary-text", "#ccc"),
    Write("--secondary-hover", "#3c3a44"),
    Write("--scrollbar", "#555"),
    Write("--scrollbar-hover", "#888"),
    Write("--scrollbar-bg", "#252526"),
    Write("--list-bg", "#252526"),
    Write("--switch-toggle", "white"),
    Write("--watermark", "#ffffff6e"),
    Write("--borders", "#494953"),
    Write("--shadow", "#191920")
  ]

  /** `changeToLight`, in the order of its writes. */
  const LightTable: seq<Write> := [
    Write("--shade", "1"),
    Write("--shade-hover", "0.8"),
    Write("--shade-fade", "0.8"),
    Write("--shade-fade-hover", "1"),
    Write("--primary", "#eb6056"),
    Write("--primary-hover", "red"),
    Write("--menu-fg", "white"),
    Write("--menu-bg", "#ab9edb"),
    Write("--textarea-bg", "#f5f8fc"),
    Write("--canvas", "#f1f3f5"),
    Write("--submenu-bg", "#ddd8f1"),
    Write("--switch-bg", "#ccc"),
    Write("--header-text", "white"),
    Write("--primary-text", "black"),
    Write("--secondary-text", "black"),
    Write("--secondary-hover", "#eeecf8"),
    Write("--scrollbar", "#889"),
    Write("--scrollbar-hover", "#556"),
    Write("--scrollbar-bg", "#ccc"),
    Write("--list-bg", "white"),
    Write("--switch-toggle", "white"),
    Write("--watermark", "#eb6056"),
    Write("--borders", "#ccccdd"),
    Write("--shadow", "#ccccdd")
  ]

  /** The "Twilight" branch of `changeTheme`. */
  const TwilightTable: seq<Write> := [
    Write("--shade", "0.6"),
    Write("--shade-hover", "1"),
    Write("--shade-fade", "0.6"),
    Write("--shade-fade-hover", "1"),
    Write("--primary", "#ab9edb"),
    Write("--primary-hover", "green"),
    Write("--menu-fg", "#323558"),
    Write("--menu-bg", "#24233D"),
    Write("--textarea-bg", "#171717"),
    Write("--canvas", "#0c0c15"),
    Write("--submenu-bg", "#000000"),
    Write("--switch-bg", "#ccc"),
    Write("--header-text", "white"),
    Write("--primary-text", "#ffffff"),
    Write("--secondary-text", "#ccc"),
    Write("--secondary-hover", "#3c3a44"),
    Write("--scrollbar", "#555"),
    Write("--scrollbar-hover", "#888"),
    Write("--scrollbar-bg", "#252526"),
    Write("--list-bg", "#252526"),
    Write("--switch-toggle", "#ffffff"),
    Write("--watermark", "#ffffff6e"),
    Write("--borders", "#494953"),
    Write("--shadow", "#101010")
  ]

  /** The "Arctic" branch of `changeTheme`. */
  const ArcticTable: seq<Write> := [
    Write("--shade", "0.6"),
    Write("--shade-hover", "1"),
    Write("--shade-fade", "0.6"),
    Write("--shade-fade-hover", "1"),
    Write("--primary", "#819ac1"),
    Write("--primary-hover", "#bce"),
    Write("--menu-fg", "#2e3440"),
    Write("--menu-bg", "#383a59"),
    Write("--textarea-bg", "#1c1e26"),
    Write("--canvas", "#191a1f"),
    Write("--submenu-bg", "#22262f"),
    Write("--switch-bg", "#d8dee9"),
    Write("--header-text", "#22262f"),
    Write("--primary-text", "#d8dee9"),
    Write("--secondary-text", "#d8dee9"),
    Write("--secondary-hover", "#3b4252"),
    Write("--scrollbar", "#434c5e"),
    Write("--scrollbar-hover", "#678"),
    Write("--scrollbar-bg", "#1c1e26"),
    Write("--list-bg", "#2e3440"),
    Write("--switch-toggle", "#d8dee9"),
    Write("--watermark", "#ffffff6e"),
    Write("--borders", "#484a53"),
    Write("--shadow", "#14161a")
  ]

  function Table(p: Palette): seq<Write> {
    match p
    case Dark => DarkTable
    case Light => LightTable
    case Twilight => TwilightTable
    case Arctic => ArcticTable
  }

  /** The property names a table writes, in order. */
  function Names(t: seq<Write>): (r: seq<string>)
    ensures |r| == |t| && forall i :: 0 <= i < |t| ==> r[i] == t[i].name
  {
    seq(|t|, i requires 0 <= i < |t| => t[i].name)
  }

  predicate Distinct(s: seq<string>) {
    forall i, j :: 0 <= i < j < |s| ==> s[i] != s[j]
  }

  /** The properties every theme writes, in the order `changeToDark` writes them. */
  const VariableNames: seq<string> := [
    "--shade", "--shade-hover", "--shade-fade", "--shade-fade-hover",
    "--primary", "--primary-hover", "--menu-fg", "--menu-bg",
    "--textarea-bg", "--canvas", "--submenu-bg", "--switch-bg",
    "--header-text", "--primary-text", "--secondary-text", "--secondary-hover",
    "--scrollbar", "--scrollbar-hover", "--scrollbar-bg", "--list-bg",
    "--switch-toggle", "--watermark", "--borders", "--shadow"]

  /** Enough of a property name to tell the 24 names apart. */
  function Fingerprint(s: string): (int, char, char, char)
    requires |s| >= 4
  {
    (|s|, s[2], s[3], s[|s| - 2])
  }

  lemma VariableNamesDistinct()
    ensures Distinct(VariableNames)
  {
    forall i, j | 0 <= i < j < |VariableNames|
      ensures VariableNames[i] != VariableNames[j]
    {
      assert Fingerprint(VariableNames[i]) != Fingerprint(VariableNames[j]);
    }
  }

  /**
   * Every branch of `changeTheme` writes the same 24 distinct properties
   * in the same order; only the values differ.
   */
  lemma TablesWriteSameProperties(p: Palette)
    ensures |Table(p)| == VariableCount
    ensures Names(Table(p)) == VariableNames
    ensures Distinct(Names(Table(p)))
  {
    VariableNamesDistinct();
  }

  /**
   * `changeTheme(id)`: "Follow device theme" follows the
   * `prefers-color-scheme: dark` media query, the four named themes pick
   * their own table, and every other id falls back to the dark one.
   */
  function Resolve(id: string, prefersDark: bool): (r: Palette)
    ensures r == Light <==> id == "Light" || (id == "Follow device theme" && !prefersDark)
    ensures r == Twilight <==> id == "Twilight"
    ensures r == Arctic <==> id == "Arctic"
    ensures id != "Follow device theme" && id != "Light" && id != "Twilight" && id != "Arctic" ==> r == Dark
  {
    if id == "Follow device theme" then (if prefersDark then Dark else Light)
    else if id == "Light" then Light
    else if id == "Dark" then Dark
    else if id == "Twilight" then Twilight
    else if id == "Arctic" then Arctic
    else Dark
  }

  /** The style declarations after the writes of `t`, one after the other. */
  function Apply(vars: map<string, string>, t: seq<Write>): map<string, string>
    decreases |t|
  {
    if t == [] then vars
    else Apply(vars, t[..|t| - 1])[t[|t| - 1].name := t[|t| - 1].value]
  }

  /**
   * Writing a table with distinct names leaves every one of them holding
   * the table's value and every other property as it was.
   */
  lemma {:induction false} ApplyEffect(vars: map<string, string>, t: seq<Write>)
    requires Distinct(Names(t))
    ensures forall i :: 0 <= i < |t| ==> t[i].name in Apply(vars, t) && Apply(vars, t)[t[i].name] == t[i].value
    ensures forall n :: n !in Names(t) ==> (n in Apply(vars, t) <==> n in vars)
    ensures forall n :: n !in Names(t) && n in vars ==> Apply(vars, t)[n] == vars[n]
    decreases |t|
  {
    if t != [] {
      var init := t[..|t| - 1];
      assert Names(init) == Names(t)[..|t| - 1];
      ApplyEffect(vars, init);
    }
  }

  /**
   * Applying a theme overwrites every property any theme writes, so the
   * result on those properties does not depend on the previous theme, and
   * leaves all other properties alone.
   */
  lemma ThemeOverwritesPrevious(before1: map<string, string>, before2: map<string, string>, p: Palette, n: string)
    ensures n in VariableNames ==>
              n in Apply(before1, Table(p)) && n in Apply(before2, Table(p)) &&
              Apply(before1, Table(p))[n] == Apply(before2, Table(p))[n]
    ensures n !in VariableNames ==>
              (n in Apply(before1, Table(p)) <==> n in before1) &&
              (n in before1 ==> Apply(before1, Table(p))[n] == before1[n])
  {
    var t := Table(p);
    TablesWriteSameProperties(p);
    ApplyEffect(before1, t);
    ApplyEffect(before2, t);
    if n in VariableNames {
      var i :| 0 <= i < |VariableNames| && VariableNames[i] == n;
      assert Names(t)[i] == t[i].name;
    }
  }

  /** `:root`'s inline style: the custom properties set so far. */
  class Root {
    var vars: map<string, string>

    constructor ()
      ensures vars == map[]
    {
      vars := map[];
    }

    /** `root.style.setProperty(name, value)`. */
    method SetProperty(name: string, value: string)
      modifies this
      ensures vars == old(vars)[name := value]
    {
      vars := vars[name := value];
    }

    /** The run of `setProperty` calls of one table. */
    method WriteAll(t: seq<Write>)
      modifies this
      ensures vars == Apply(old(vars), t)
    {
      for i := 0 to |t|
        invariant vars == Apply(old(vars), t[..i])
      {
        assert t[..i + 1][..i] == t[..i];
        SetProperty(t[i].name, t[i].value);
      }
      assert t[..|t|] == t;
    }

    /** `changeToDark`. */
    method ChangeToDark()
      modifies this
      ensures vars == Apply(old(vars), DarkTable)
    {
      WriteAll(DarkTable);
    }

    /** `changeToLight`. */
    method ChangeToLight()
      modifies this
      ensures vars == Apply(old(vars), LightTable)
    {
      WriteAll(LightTable);
    }

    /**
     * `changeTheme(id)`; the media query's answer is the parameter
     * `prefersDark`.
     */
    method ChangeTheme(id: string, prefersDark: bool)
      modifies this
      ensures vars == Apply(old(vars), Table(Resolve(id, prefersDark)))
    {
      if id == "Follow device theme" {
        if prefersDark {
          ChangeToDark();
        } else {
          ChangeToLight();
        }
      } else if id == "Light" {
        ChangeToLight();
      } else if id == "Dark" {
        ChangeToDark();
      } else if id == "Twilight" {
        WriteAll(TwilightTable);
      } else if id == "Arctic" {
        WriteAll(ArcticTable);
      } else {
        ChangeToDark();
      }
    }
  }

  /** A child node of a theme menu: a button, or some other node (text, say). */
  class MenuNode {
    const isButton: bool
    const id: string
    var selected: bool

    constructor (button: bool, name: string, sel: bool)
      ensures isButton == button && id == name && selected == sel
    {
      isButton := button;
      id := name;
      selected := sel;
    }
  }

  /**
   * The click listener `select` attaches to the button `nodes[k]` of a
   * theme menu. The listener reads the loop variable `i` of `select`,
   * which by then equals the number of child nodes, so the `i == j` test
   * never skips anything; and `classList.toggle("select", false)` always
   * returns false, so `check` stays false. Every button, the clicked one
   * included, is unselected, then the clicked one is toggled back on, its
   * id is handed to storage (returned here as `stored`) and its theme is
   * applied.
   */
  method SelectClick(nodes: seq<MenuNode>, k: nat, root: Root, prefersDark: bool) returns (stored: string)
    requires k < |nodes| && nodes[k].isButton
    requires forall a, b :: 0 <= a < b < |nodes| ==> nodes[a] != nodes[b]
    modifies (set n | n in nodes), root
    ensures forall j :: 0 <= j < |nodes| && nodes[j].isButton ==> (nodes[j].selected <==> j == k)
    ensures forall j :: 0 <= j < |nodes| && !nodes[j].isButton ==> nodes[j].selected == old(nodes[j].selected)
    ensures stored == nodes[k].id
    ensures root.vars == Apply(old(root.vars), Table(Resolve(nodes[k].id, prefersDark)))
  {
    var i := |nodes|;
    var check := false;
    for j := 0 to |nodes|
      invariant !check
      invariant forall m :: 0 <= m < j && nodes[m].isButton ==> !nodes[m].selected
      invariant forall m :: 0 <= m < |nodes| && (j <= m || !nodes[m].isButton) ==> nodes[m].selected == old(nodes[m].selected)
      invariant root.vars == old(root.vars)
    {
      if i == j {
        continue;
      }
      if nodes[j].isButton {
        nodes[j].selected := false;
        var toggled := false;
        if toggled != false {
          check := true;
        }
      }
    }
    stored := "";
    if !check {
      stored := nodes[k].id;
      nodes[k].selected := !nodes[k].selected;
      root.ChangeTheme(nodes[k].id, prefersDark);
    }
  }
}
