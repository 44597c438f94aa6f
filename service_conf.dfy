/** The parsed service descriptor handed to the manager: sections of
    `name = value` options, kept in file order with option names compared
    case-sensitively (the parser's name folding is switched off). */
module ServiceConf {
  import opened SvcmBase

  datatype Entry = Entry(name: string, value: string)

  /** One section's options in file order. */
  type Section = seq<Entry>

  /** Section name to its options. */
  type Descriptor = map<string, Section>

  /** `options(section)`: the option names in file order. */
  function Options(section: Section): seq<string>
  {
    seq(|section|, i requires 0 <= i < |section| => section[i].name)
  }

  /** `get(section, name)`: the value of the first option called `name`,
      or None where the parser raises NoOptionError. */
  function Get(section: Section, name: string): (r: Option<string>)
    ensures r.Some? <==> name in Options(section)
    ensures r.Some? ==> exists i :: 0 <= i < |section| && section[i] == Entry(name, r.value)
  {
    if |section| == 0 then None
    else if section[0].name == name then
      assert Options(section)[0] == name;
      Some(section[0].value)
    else
      var r := Get(section[1..], name);
      assert Options(section) == [section[0].name] + Options(section[1..]);
      if r.Some? then
        var i :| 0 <= i < |section[1..]| && section[1..][i] == Entry(name, r.value);
        assert section[i + 1] == Entry(name, r.value);
        r
      else r
  }
}
