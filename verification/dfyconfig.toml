includes = ["**/*.dfy"]

[options]
verification-time-limit = 0
resource-limit = 2000000
warn-contradictory-assumptions = true
