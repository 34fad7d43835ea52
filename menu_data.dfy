/** The static dish catalogue the order action looks items up in
    (lib/menu-data.ts), with prices in cents. */
module MenuData {
  import opened Wrappers
  import opened Types

  const Image := Some("/menu-pasta-1.png")

  const MenuItems: seq<MenuItem> := [
    MenuItem("1", "Wiener Schnitzel", "Klassisches paniertes Kalbsschnitzel mit Pommes", 1890, Image),
    MenuItem("2", "Sauerbraten", "Mariniertes Rindfleisch mit Rotkohl und Klößen", 1650, Image),
    MenuItem("3", "Bratwurst mit Sauerkraut", "Traditionelle Bratwurst mit Sauerkraut und Kartoffeln", 1290, Image),
    MenuItem("4", "Königsberger Klopse", "Hackfleischklößchen in weißer Sauce mit Kapern", 1450, Image),
    MenuItem("5", "Rinderroulade", "Gefüllte Rinderroulade mit Rotkohl und Spätzle", 1990, Image),
    MenuItem("6", "Schweinebraten", "Geschmorter Schweinebraten mit Knödel und Soße", 1750, Image),
    MenuItem("7", "Kasseler mit Sauerkraut", "Geräuchertes Kasseler mit Sauerkraut und Kartoffeln", 1590, Image),
    MenuItem("8", "Jägerschnitzel", "Schnitzel mit Pilzrahmsoße und Pommes", 1690, Image),
    MenuItem("9", "Maultaschen", "Schwäbische Maultaschen mit Zwiebeln und Salat", 1350, Image),
    MenuItem("10", "Forelle Müllerin Art", "Gebratene Forelle mit Kartoffeln und Zitrone", 1850, Image)
  ]
}
