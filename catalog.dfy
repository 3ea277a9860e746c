/** The application records the market lists, and its fixed tab bar. */
module Catalog {

  /** One application record, as loaded from the static list (read only). */
  datatype App = App(
    id: int,
    name: string,
    category: string,
    iconUrl: string,
    rating: real,
    description: string,
    fullDescription: string,
    developer: string,
    version: string,
    screenshots: seq<string>)

  const Featured: string := "Featured"
  const AllApps: string := "All Apps"

  const AllCategories: seq<string> := [
    "Productivity", "Finance", "Graphics & Design", "Music & Audio",
    "Health & Fitness", "Developer Tools", "Books & Reference", "Food & Drink"]

  /** The tab bar: Featured, All Apps, then one tab per category. */
  const Tabs: seq<string> := [Featured, AllApps] + AllCategories

  /** The rating from which an application is shown under Featured. */
  const FeaturedRating: real := 4.5
}
